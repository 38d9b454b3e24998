/** The tunnel table of the lexer and the connection part of create_router
    (lib/lexer.cc), refining the graph of TunnelGraph. */
module Tunnels {
  import opened Ports
  import opened TunnelGraph

  // ----- Data ---------------------------------------------------------------

  /** class Lexer::TunnelEnd.  Ends are named by their position in `ends`; `other`
      is the paired end or -1; `expanded` is 0, 1 while expanding, 2 when done. */
  datatype TunnelEnd = TunnelEnd(port: Port, isoutput: bool, other: int, expanded: int, correspond: seq<Port>)

  function KeyOf(e: TunnelEnd): Key { Key(e.port, e.isoutput) }

  // ----- Table invariants ---------------------------------------------------

  ghost predicate UniqueKeys(ends: seq<TunnelEnd>) {
    forall i, j :: 0 <= i < j < |ends| ==> KeyOf(ends[i]) != KeyOf(ends[j])
  }

  ghost predicate HasKey(ends: seq<TunnelEnd>, k: Key) {
    exists i :: 0 <= i < |ends| && KeyOf(ends[i]) == k
  }

  /** One list per pseudo-element, every list about one element. */
  ghost predicate ListOk(ends: seq<TunnelEnd>, list: seq<nat>) {
    && |list| > 0
    && (forall i :: 0 <= i < |list| ==> list[i] < |ends|)
    && (forall i :: 0 <= i < |list| ==> ends[list[i]].port.idx == ends[list[0]].port.idx)
  }

  ghost predicate InLists(tunnels: seq<seq<nat>>, id: nat) {
    exists l :: 0 <= l < |tunnels| && id in tunnels[l]
  }

  /** `_tunnels`: lists sorted by element index, holding every end, no key twice. */
  ghost predicate Listed(ends: seq<TunnelEnd>, tunnels: seq<seq<nat>>) {
    && UniqueKeys(ends)
    && (forall l :: 0 <= l < |tunnels| ==> ListOk(ends, tunnels[l]))
    && (forall l, m :: 0 <= l < m < |tunnels| ==>
          ends[tunnels[l][0]].port.idx < ends[tunnels[m][0]].port.idx)
    && (forall id :: 0 <= id < |ends| ==> InLists(tunnels, id))
  }

  /** End i is paired with the far end of its tunnel, and back. */
  ghost predicate PairOk(cfg: Config, ends: seq<TunnelEnd>, i: nat)
    requires i < |ends|
  {
    && cfg.Linked(KeyOf(ends[i]))
    && 0 <= ends[i].other < |ends| && ends[ends[i].other].other == i
    && KeyOf(ends[ends[i].other]) == cfg.Partner(KeyOf(ends[i]))
  }

  ghost predicate Paired(cfg: Config, ends: seq<TunnelEnd>) {
    && cfg.Valid()
    && (forall i :: 0 <= i < |ends| ==> PairOk(cfg, ends, i))
    && (forall d, a :: a in cfg.Link(d) ==> HasKey(ends, Key(Port(a, 0), d)))
  }

  /** What lazily created ends look like. */
  ghost predicate Untouched(ends: seq<TunnelEnd>, from: nat) {
    forall i :: from <= i < |ends| ==> ends[i].expanded == 0 && ends[i].correspond == []
  }

  // ----- The table ----------------------------------------------------------

  class Table {
    var ends: seq<TunnelEnd>
    var tunnels: seq<seq<nat>>

    constructor ()
      ensures ends == [] && tunnels == [] && Listed(ends, tunnels)
    {
      ends, tunnels := [], [];
    }

    /** Binary search for the list of an element: its position, or where it
        would have to go. */
    method Locate(idx: int) returns (l: nat, found: bool)
      requires Listed(ends, tunnels)
      ensures l <= |tunnels|
      ensures found ==> l < |tunnels| && ends[tunnels[l][0]].port.idx == idx
      ensures !found ==> forall m :: 0 <= m < |tunnels| ==>
                (m < l ==> ends[tunnels[m][0]].port.idx < idx) && (m >= l ==> ends[tunnels[m][0]].port.idx > idx)
    {
      l := 0;
      var r := |tunnels|;
      while l < r
        invariant 0 <= l <= r <= |tunnels|
        invariant forall m :: 0 <= m < l ==> ends[tunnels[m][0]].port.idx < idx
        invariant forall m :: r <= m < |tunnels| ==> ends[tunnels[m][0]].port.idx > idx
      {
        var m := l + (r - l) / 2;
        assert ListOk(ends, tunnels[m]);
        var at := ends[tunnels[m][0]].port.idx;
        if idx < at { r := m; }
        else if idx > at { l := m + 1; }
        else { return m, true; }
      }
      found := false;
    }

    /** Add an unpaired end to the list at l, which is about its element. */
    method PushEnd(h: Port, isoutput: bool, l: nat) returns (te: nat)
      requires Listed(ends, tunnels) && !HasKey(ends, Key(h, isoutput))
      requires l < |tunnels| && ends[tunnels[l][0]].port.idx == h.idx
      modifies this
      ensures Listed(ends, tunnels)
      ensures te == |old(ends)| && ends == old(ends) + [TunnelEnd(h, isoutput, -1, 0, [])]
    {
      te := |ends|;
      ghost var ends0, tunnels0 := ends, tunnels;
      ends := ends + [TunnelEnd(h, isoutput, -1, 0, [])];
      tunnels := tunnels[l := [te] + tunnels[l]];
      PushKeepsListed(ends0, tunnels0, ends[te], l);
    }

    /** Open a list for a new element and add an unpaired end. */
    method OpenList(h: Port, isoutput: bool, l: nat) returns (te: nat)
      requires Listed(ends, tunnels) && l <= |tunnels|
      requires forall m :: 0 <= m < |tunnels| ==>
                 (m < l ==> ends[tunnels[m][0]].port.idx < h.idx) && (m >= l ==> ends[tunnels[m][0]].port.idx > h.idx)
      modifies this
      ensures Listed(ends, tunnels)
      ensures te == |old(ends)| && ends == old(ends) + [TunnelEnd(h, isoutput, -1, 0, [])]
    {
      te := |ends|;
      ghost var ends0, tunnels0 := ends, tunnels;
      ends := ends + [TunnelEnd(h, isoutput, -1, 0, [])];
      tunnels := tunnels[..l] + [[te]] + tunnels[l..];
      OpenKeepsListed(ends0, tunnels0, ends[te], l);
    }

    /** Look through the list at l: the end with the wanted port, else the end
        for port 0 on the same side, else -1. */
    method Scan(l: nat, h: Port, isoutput: bool) returns (te: int, match0: int)
      requires Listed(ends, tunnels) && l < |tunnels| && ends[tunnels[l][0]].port.idx == h.idx
      ensures te == -1 || (0 <= te < |ends| && KeyOf(ends[te]) == Key(h, isoutput))
      ensures te == -1 ==> !HasKey(ends, Key(h, isoutput))
      ensures match0 == -1 || (0 <= match0 < |ends| && KeyOf(ends[match0]) == Key(Port(h.idx, 0), isoutput))
      ensures te == -1 && match0 == -1 ==> !HasKey(ends, Key(Port(h.idx, 0), isoutput))
    {
      var list := tunnels[l];
      assert ListOk(ends, list);
      te, match0 := -1, -1;
      var i := 0;
      while i < |list|
        invariant 0 <= i <= |list|
        invariant match0 == -1 || (0 <= match0 < |ends| && KeyOf(ends[match0]) == Key(Port(h.idx, 0), isoutput))
        invariant forall j :: 0 <= j < i ==> KeyOf(ends[list[j]]) != Key(h, isoutput)
        invariant match0 == -1 ==> forall j :: 0 <= j < i ==> KeyOf(ends[list[j]]) != Key(Port(h.idx, 0), isoutput)
      {
        var e := ends[list[i]];
        if e.isoutput == isoutput && e.port.port == h.port { return list[i], match0; }
        if e.isoutput == isoutput && e.port.port == 0 { match0 := list[i]; }
        i := i + 1;
      }
      if HasKey(ends, Key(h, isoutput)) { OnlyInItsList(ends, tunnels, l, Key(h, isoutput)); }
      if HasKey(ends, Key(Port(h.idx, 0), isoutput)) {
        OnlyInItsList(ends, tunnels, l, Key(Port(h.idx, 0), isoutput));
      }
    }

    /** find_tunnel with insert: the end for a port, made unpaired if missing. */
    method FindOrInsert(h: Port, isoutput: bool) returns (te: nat)
      requires Listed(ends, tunnels)
      modifies this
      ensures Listed(ends, tunnels)
      ensures te < |ends| && KeyOf(ends[te]) == Key(h, isoutput)
      ensures if HasKey(old(ends), Key(h, isoutput)) then ends == old(ends)
              else te == |old(ends)| && ends == old(ends) + [TunnelEnd(h, isoutput, -1, 0, [])]
    {
      var l, found := Locate(h.idx);
      if !found {
        NoListNoEnds(ends, tunnels, Key(h, isoutput));
        te := OpenList(h, isoutput, l);
        return;
      }
      var t, match0 := Scan(l, h, isoutput);
      if t >= 0 { te := t; } else { te := PushEnd(h, isoutput, l); }
    }

    /** pair_with.  The requires is the assertion of the source. */
    method PairWith(te: nat, d: nat)
      requires te < |ends| && d < |ends| && te != d && Listed(ends, tunnels)
      requires ends[te].other == -1 && ends[d].other == -1
      requires ends[te].isoutput == !ends[d].isoutput && ends[te].port.port == ends[d].port.port
      modifies this`ends
      ensures ends == old(ends)[te := old(ends[te]).(other := d)][d := old(ends[d]).(other := te)]
      ensures Listed(ends, tunnels)
    {
      ghost var ends0 := ends;
      ends := ends[te := ends[te].(other := d)][d := ends[d].(other := te)];
      SameKeysListed(ends0, ends, tunnels);
    }

    /** find_tunnel without insert: the end for a port, if its element has a
        tunnel on that side; ends for ports not seen before are made in pairs. */
    method FindTunnel(h: Port, isoutput: bool, ghost cfg: Config) returns (te: int)
      requires Listed(ends, tunnels) && Paired(cfg, ends)
      modifies this
      ensures Listed(ends, tunnels) && Paired(cfg, ends)
      ensures te == -1 || (0 <= te < |ends| && KeyOf(ends[te]) == Key(h, isoutput))
      ensures te >= 0 <==> h.idx in cfg.Link(isoutput)
      ensures Extended(cfg, old(ends), ends, Key(h, isoutput))
    {
      var l, found := Locate(h.idx);
      if !found {
        NoListNoEnds(ends, tunnels, Key(Port(h.idx, 0), isoutput));
        return -1;
      }
      var t, match0 := Scan(l, h, isoutput);
      if t >= 0 {
        assert PairOk(cfg, ends, t);
        return t;
      }
      if match0 < 0 { return -1; }
      assert PairOk(cfg, ends, match0);
      ghost var ends0, k := ends, Key(h, isoutput);
      var far := Port(ends[ends[match0].other].port.idx, h.port);
      PartnerMissing(cfg, ends, k);
      te := PushEnd(h, isoutput, l);
      assert !HasKey(ends, Key(far, !isoutput)) by { PushedKey(ends0, ends[te], Key(far, !isoutput)); }
      var ote := FindOrInsert(far, !isoutput);
      PairWith(te, ote);
      NewPair(cfg, ends0, ends, k);
    }

    /** add_tunnels on the global level, for the pseudo-elements `name`,
        `name/input` and `name/output`: two tunnels of port 0. */
    method AddTunnels(name: int, input: int, output: int, ghost cfg: Config) returns (ok: bool, ghost cfg': Config)
      requires Listed(ends, tunnels) && Paired(cfg, ends) && Untouched(ends, 0)
      requires name != input && name != output && input != output
      modifies this
      ensures Listed(ends, tunnels)
      ensures ok <==> name !in cfg.inLink && input !in cfg.outLink && output !in cfg.inLink && name !in cfg.outLink
      ensures ok ==> Paired(cfg', ends) && Untouched(ends, 0)
      ensures ok ==> cfg' == cfg.(tunnels := cfg.tunnels + {name, input, output},
                                  inLink := cfg.inLink[name := input][output := name],
                                  outLink := cfg.outLink[input := name][name := output])
    {
      ghost var ends0 := ends;
      ghost var k0, k1 := Key(Port(name, 0), false), Key(Port(input, 0), true);
      ghost var k2, k3 := Key(Port(output, 0), false), Key(Port(name, 0), true);
      LinkedIffPresent(cfg, ends, k0);
      LinkedIffPresent(cfg, ends, k1);
      LinkedIffPresent(cfg, ends, k2);
      LinkedIffPresent(cfg, ends, k3);
      cfg' := cfg.(tunnels := cfg.tunnels + {name, input, output},
      inLink := cfg.inLink[name := input][output := name], outLink := cfg.outLink[input := name][name := output]);
      hide Listed, Paired, HasKey;
      var t0, t1, t2, t3 := InsertFour(name, input, output);
      ok := ends[t0].other < 0 && ends[t1].other < 0 && ends[t2].other < 0 && ends[t3].other < 0;
      OldKeyIsPaired(cfg, ends0, ends, tunnels, k0, t0);
      OldKeyIsPaired(cfg, ends0, ends, tunnels, k1, t1);
      OldKeyIsPaired(cfg, ends0, ends, tunnels, k2, t2);
      OldKeyIsPaired(cfg, ends0, ends, tunnels, k3, t3);
      if ok {
        PairWith(t0, t1);
        PairWith(t2, t3);
        NewTunnels(cfg, cfg', ends0, ends, name, input, output);
      }
    }

    method InsertFour(name: int, input: int, output: int) returns (t0: nat, t1: nat, t2: nat, t3: nat)
      requires Listed(ends, tunnels) && name != input && name != output && input != output
      modifies this
      ensures Listed(ends, tunnels) && old(ends) <= ends
      ensures t0 < |ends| && KeyOf(ends[t0]) == Key(Port(name, 0), false)
      ensures t1 < |ends| && KeyOf(ends[t1]) == Key(Port(input, 0), true)
      ensures t2 < |ends| && KeyOf(ends[t2]) == Key(Port(output, 0), false)
      ensures t3 < |ends| && KeyOf(ends[t3]) == Key(Port(name, 0), true)
      ensures !HasKey(old(ends), Key(Port(name, 0), false)) && !HasKey(old(ends), Key(Port(input, 0), true))
              && !HasKey(old(ends), Key(Port(output, 0), false)) && !HasKey(old(ends), Key(Port(name, 0), true)) ==>
                var n := |old(ends)|;
                && t0 == n && t1 == n + 1 && t2 == n + 2 && t3 == n + 3
                && ends == old(ends) + [Fresh(Key(Port(name, 0), false)), Fresh(Key(Port(input, 0), true)),
                                        Fresh(Key(Port(output, 0), false)), Fresh(Key(Port(name, 0), true))]
    {
      hide Listed, HasKey;
      ghost var k0, k1 := Key(Port(name, 0), false), Key(Port(input, 0), true);
      ghost var k2, k3 := Key(Port(output, 0), false), Key(Port(name, 0), true);
      ghost var ends0 := ends;
      t0 := FindOrInsert(Port(name, 0), false);
      ghost var ends1 := ends;
      t1 := FindOrInsert(Port(input, 0), true);
      ghost var ends2 := ends;
      t2 := FindOrInsert(Port(output, 0), false);
      t3 := FindOrInsert(Port(name, 0), true);
      if !HasKey(ends0, k0) && !HasKey(ends0, k1) && !HasKey(ends0, k2) && !HasKey(ends0, k3) {
        PushedKey(ends0, Fresh(k0), k1);
        PushedKey(ends0, Fresh(k0), k2);
        PushedKey(ends1, Fresh(k1), k2);
        PushedKey(ends0, Fresh(k0), k3);
        PushedKey(ends1, Fresh(k1), k3);
        PushedKey(ends2, Fresh(k2), k3);
      }
    }

    /** First-level expansion of one side of one connection: tell the far end of
        the tunnel what is connected here. */
    method CutSide(c: Conn, side: bool, alive: set<int>, ghost cfg: Config, ghost n: nat, ghost nt: nat, ghost nf: nat)
      requires Listed(ends, tunnels) && Paired(cfg, ends) && alive !! cfg.tunnels
      requires n < |cfg.conns| && cfg.conns[n] == c && nt <= |cfg.conns| && nf <= |cfg.conns|
      requires n == if side then nf else nt
      requires Cut(cfg, ends, nt, nf)
      modifies this
      ensures Listed(ends, tunnels) && Paired(cfg, ends)
      ensures if side then Cut(cfg, ends, nt, nf + 1) else Cut(cfg, ends, nt + 1, nf)
    {
      ghost var k := Key(c.Side(side), side);
      hide Listed, Paired, Cut;
      if c.Side(side).idx !in alive {
        ghost var ends0 := ends;
        var te := FindTunnel(c.Side(side), side, cfg);
        CutExtended(cfg, ends0, ends, k, nt, nf);
        if te >= 0 {
          PairAt(cfg, ends, te);
          var o := ends[te].other;
          ghost var ends1 := ends;
          ends := ends[o := ends[o].(correspond := ends[o].correspond + [c.Side(!side)])];
          SameKeysListed(ends1, ends, tunnels);
          SameKeysPaired(cfg, ends1, ends);
          CutPushed(cfg, ends1, ends, te, n, nt, nf);
        } else {
          CutUnlinked(cfg, ends, k, n, nt, nf);
        }
      } else {
        LinkedAreTunnels(cfg, ends, k);
        CutUnlinked(cfg, ends, k, n, nt, nf);
      }
    }

    /** First-level connection expansion over all connections. */
    method FirstCut(conns: seq<Conn>, alive: set<int>, ghost cfg: Config)
      requires Listed(ends, tunnels) && Paired(cfg, ends) && alive !! cfg.tunnels && cfg.conns == conns
      requires Untouched(ends, 0)
      modifies this
      ensures Listed(ends, tunnels) && Paired(cfg, ends) && Cut(cfg, ends, |conns|, |conns|)
    {
      CutStart(cfg, ends);
      hide Listed, Paired, Cut;
      var n := 0;
      while n < |conns|
        invariant 0 <= n <= |conns|
        invariant Listed(ends, tunnels) && Paired(cfg, ends) && Cut(cfg, ends, n, n)
      {
        CutSide(conns[n], false, alive, cfg, n, n, n);
        CutSide(conns[n], true, alive, cfg, n, n + 1, n);
        n := n + 1;
      }
    }

    /** TunnelEnd::expand: exactly the memoised expansion of the graph. */
    method ExpandEnd(te: nat, isTunnel: set<int>, ghost cfg: Config, ghost memo: Memo)
      returns (out: seq<Port>, ghost memo': Memo)
      requires State(cfg, ends, tunnels, memo) && cfg.tunnels == isTunnel
      requires te < |ends| && KeyOf(ends[te]) in cfg.Universe() && cfg.Linked(KeyOf(ends[te]))
      modifies this
      ensures State(cfg, ends, tunnels, memo') && Frozen(old(ends), ends)
      ensures (memo', out) == Expand(cfg, memo, KeyOf(old(ends[te])))
      decreases cfg.Universe() - memo.Keys, 0
    {
      hide State, Frozen;
      ghost var k, ends0 := KeyOf(ends[te]), ends;
      MarkAt(cfg, ends, tunnels, memo, te);
      FrozenSelf(ends);
      if ends[te].expanded == 1 { return [], memo; }
      memo' := memo;
      if ends[te].expanded == 0 {
        var connections, d := ends[te].correspond, ends[te].isoutput;
        ends := ends[te := ends[te].(expanded := 1, correspond := [])];
        memo' := memo[k := Busy];
        Begin(cfg, ends0, ends, tunnels, memo, te);
        assert k in cfg.Universe() - memo.Keys && k !in cfg.Universe() - memo'.Keys;
        memo' := ExpandAll(te, connections, isTunnel, cfg, memo', ends0);
        ghost var ends1, m := ends, memo';
        ends := ends[te := ends[te].(expanded := 2)];
        memo' := memo'[k := Done(ends[te].correspond)];
        Finish(cfg, ends0, ends1, ends, tunnels, m, te);
      }
      out := ends[te].correspond;
    }

    /** The loop of TunnelEnd::expand, filling `_correspond` anew. */
    method ExpandAll(te: nat, connections: seq<Port>, isTunnel: set<int>, ghost cfg: Config, ghost memo: Memo,
                     ghost ends0: seq<TunnelEnd>) returns (ghost memo': Memo)
      requires State(cfg, ends, tunnels, memo) && cfg.tunnels == isTunnel
      requires te < |ends| && ends[te].expanded == 1 && ends[te].correspond == []
      requires te < |ends0| && FrozenBut(ends0, ends, te)
      requires forall q :: q in connections ==> Key(q, ends[te].isoutput) in cfg.Universe()
      modifies this
      ensures te < |ends| && ends[te] == old(ends[te]).(correspond := ends[te].correspond)
      ensures State(cfg, ends, tunnels, memo') && FrozenBut(ends0, ends, te)
      ensures (memo', ends[te].correspond) == ExpandList(cfg, memo, connections, ends[te].isoutput)
      decreases cfg.Universe() - memo.Keys, 2 + |connections|
    {
      hide State, FrozenBut;
      if connections == [] { return memo; }
      var front, last := connections[..|connections| - 1], connections[|connections| - 1];
      memo' := ExpandAll(te, front, isTunnel, cfg, memo, ends0);
      var out;
      ghost var ends1, m1 := ends, memo';
      out, memo' := ExpandConnection(last, ends[te].isoutput, isTunnel, cfg, m1);
      FrozenAt(ends1, ends, te);
      ghost var ends2 := ends;
      ends := ends[te := ends[te].(correspond := ends[te].correspond + out)];
      Append(cfg, ends0, ends1, ends2, ends, tunnels, memo', te);
    }

    /** expand_connection. */
    method ExpandConnection(q: Port, isOut: bool, isTunnel: set<int>, ghost cfg: Config, ghost memo: Memo)
      returns (out: seq<Port>, ghost memo': Memo)
      requires State(cfg, ends, tunnels, memo) && cfg.tunnels == isTunnel && Key(q, isOut) in cfg.Universe()
      modifies this
      ensures State(cfg, ends, tunnels, memo') && Frozen(old(ends), ends)
      ensures (memo', out) == TunnelGraph.ExpandConnection(cfg, memo, q, isOut)
      decreases cfg.Universe() - memo.Keys, 1
    {
      out, memo' := [], memo;
      FrozenSelf(ends);
      if q.idx !in isTunnel {
        out := [q];
      } else {
        ghost var ends0, tunnels0 := ends, tunnels;
        var te := FindTunnel(q, isOut, cfg);
        StateExtended(cfg, ends0, tunnels0, ends, tunnels, memo, Key(q, isOut));
        if te >= 0 {
          ghost var ends1 := ends;
          out, memo' := ExpandEnd(te, isTunnel, cfg, memo);
          FrozenTrans(ends0, ends1, ends);
        } else {
          // wrong side: the source reports an error if the element has the other
          ghost var ends1, tunnels1 := ends, tunnels;
          var wrong := FindTunnel(q, !isOut, cfg);
          StateExtended(cfg, ends1, tunnels1, ends, tunnels, memo, Key(q, !isOut));
          FrozenTrans(ends0, ends1, ends);
        }
      }
    }

    /** add_router_connections for one connection. */
    method AddRouterConnections(c: Conn, alive: set<int>, isTunnel: set<int>, ghost cfg: Config, ghost memo: Memo)
      returns (added: seq<Conn>, ghost memo': Memo)
      requires State(cfg, ends, tunnels, memo) && cfg.tunnels == isTunnel && c in cfg.conns
      modifies this
      ensures State(cfg, ends, tunnels, memo')
      ensures Key(c.from, true) in cfg.Universe() && Key(c.to, false) in cfg.Universe()
      ensures var (m1, froms) := TunnelGraph.ExpandConnection(cfg, memo, c.from, true);
              var (m2, tos) := TunnelGraph.ExpandConnection(cfg, m1, c.to, false);
              memo' == m2 && added == Pairs(froms, tos, alive)
    {
      hide State;
      SidesInUniverse(cfg, c);
      var froms, tos;
      froms, memo' := ExpandConnection(c.from, true, isTunnel, cfg, memo);
      tos, memo' := ExpandConnection(c.to, false, isTunnel, cfg, memo');
      added := MakePairs(froms, tos, alive);
    }

    /** The connection part of create_router: which connections the router gets.
        `alive` are the elements that exist in the router. */
    method CreateRouter(conns: seq<Conn>, alive: set<int>, isTunnel: set<int>, ghost cfg: Config)
      returns (router: seq<Conn>)
      requires Listed(ends, tunnels) && Paired(cfg, ends) && Untouched(ends, 0)
      requires cfg.conns == conns && cfg.tunnels == isTunnel && alive !! isTunnel
      modifies this
      ensures forall c :: c in router <==> InRouter(cfg, alive, c)
      ensures forall c :: c in router ==> Joined(cfg, c.from, c.to)
      ensures Flattenable(cfg) ==>
                forall c :: c in router <==> c.from.idx in alive && c.to.idx in alive && Joined(cfg, c.from, c.to)
    {
      PairedValid(cfg, ends);
      FirstCut(conns, alive, cfg);
      StartExpanding(cfg, ends, tunnels);
      hide *;
      var added := ExpandConnections(conns, alive, isTunnel, cfg);
      router := KeepLive(conns + added, alive);
      RouterIs(cfg, alive, router);
      RouterJoins(cfg, alive, router);
    }

    /** The loop over the original connections. */
    method ExpandConnections(conns: seq<Conn>, alive: set<int>, isTunnel: set<int>, ghost cfg: Config)
      returns (added: seq<Conn>)
      requires State(cfg, ends, tunnels, map[]) && cfg.conns == conns && cfg.tunnels == isTunnel
      modifies this
      ensures added == Flatten(cfg, alive, |conns|).1
    {
      hide State;
      ghost var memo: Memo := map[];
      added := [];
      var n := 0;
      while n < |conns|
        invariant 0 <= n <= |conns|
        invariant State(cfg, ends, tunnels, memo)
        invariant (memo, added) == Flatten(cfg, alive, n)
      {
        var c := conns[n];
        if c.from.idx !in alive || c.to.idx !in alive {
          var more;
          more, memo := AddRouterConnections(c, alive, isTunnel, cfg, memo);
          added := added + more;
        }
        n := n + 1;
      }
    }
  }

  method MakePairs(froms: seq<Port>, tos: seq<Port>, alive: set<int>) returns (added: seq<Conn>)
    ensures added == Pairs(froms, tos, alive)
  {
    added := [];
    var f := 0;
    while f < |froms|
      invariant 0 <= f <= |froms|
      invariant added == Pairs(froms[..f], tos, alive)
    {
      assert froms[..f + 1][..f] == froms[..f];
      if froms[f].idx in alive {
        ghost var before := added;
        var t := 0;
        while t < |tos|
          invariant 0 <= t <= |tos|
          invariant added == before + PairsFrom(froms[f], tos[..t], alive)
        {
          assert tos[..t + 1][..t] == tos[..t];
          if tos[t].idx in alive { added := added + [Conn(froms[f], tos[t])]; }
          t := t + 1;
        }
        assert tos[..|tos|] == tos;
      }
      f := f + 1;
    }
    assert froms[..|froms|] == froms;
  }

  /** The connections handed to the router: both elements exist there. */
  method KeepLive(all: seq<Conn>, alive: set<int>) returns (router: seq<Conn>)
    ensures forall c :: c in router <==> c in all && c.from.idx in alive && c.to.idx in alive
  {
    router := [];
    var i := 0;
    while i < |all|
      invariant 0 <= i <= |all|
      invariant forall c :: c in router <==> c in all[..i] && c.from.idx in alive && c.to.idx in alive
    {
      assert all[..i + 1] == all[..i] + [all[i]];
      if all[i].from.idx in alive && all[i].to.idx in alive { router := router + [all[i]]; }
      i := i + 1;
    }
    assert all[..|all|] == all;
  }

  lemma RouterIs(cfg: Config, alive: set<int>, router: seq<Conn>)
    requires forall c :: c in router <==>
               c in cfg.conns + Flatten(cfg, alive, |cfg.conns|).1 && c.from.idx in alive && c.to.idx in alive
    ensures forall c :: c in router <==> InRouter(cfg, alive, c)
  {
  }

  lemma PairedValid(cfg: Config, ends: seq<TunnelEnd>)
    requires Paired(cfg, ends)
    ensures cfg.Valid()
  {
  }

  /** What the specification of the router means in chains of connections. */
  lemma RouterJoins(cfg: Config, alive: set<int>, router: seq<Conn>)
    requires cfg.Valid() && alive !! cfg.tunnels && forall c :: c in router <==> InRouter(cfg, alive, c)
    ensures forall c :: c in router ==> Joined(cfg, c.from, c.to)
    ensures Flattenable(cfg) ==>
              forall c :: c in router <==> c.from.idx in alive && c.to.idx in alive && Joined(cfg, c.from, c.to)
  {
    hide Joined, Flattenable, InRouter;
    forall c | c in router ensures Joined(cfg, c.from, c.to) { RouterSound(cfg, alive, c); }
    if Flattenable(cfg) {
      forall c ensures c in router <==> c.from.idx in alive && c.to.idx in alive && Joined(cfg, c.from, c.to) {
        assert c == Conn(c.from, c.to);
        RouterExact(cfg, alive, c.from, c.to);
      }
    }
  }

  lemma StartExpanding(cfg: Config, ends: seq<TunnelEnd>, tunnels: seq<seq<nat>>)
    requires Listed(ends, tunnels) && Paired(cfg, ends) && Cut(cfg, ends, |cfg.conns|, |cfg.conns|)
    ensures State(cfg, ends, tunnels, map[])
  {
    assert cfg.conns[..|cfg.conns|] == cfg.conns;
    forall i | 0 <= i < |ends| ensures MarkOk(cfg, ends[i], map[]) {
      assert CutAt(cfg, ends[i], |cfg.conns|, |cfg.conns|);
    }
  }

  // ----- Second-level expansion ---------------------------------------------

  /** The marks in the table are the memo; unmarked ends still hold their first
      cut; every connected tunnel end exists. */
  ghost predicate MarkOk(cfg: Config, e: TunnelEnd, memo: Memo) {
    && cfg.Linked(KeyOf(e))
    && (e.expanded == 0 || e.expanded == 1 || e.expanded == 2)
    && (e.expanded == 0 ==> KeyOf(e) !in memo && e.correspond == cfg.Beyond(KeyOf(e)))
    && (e.expanded == 1 ==> KeyOf(e) in memo && memo[KeyOf(e)] == Busy)
    && (e.expanded == 2 ==> KeyOf(e) in memo && memo[KeyOf(e)] == Done(e.correspond))
  }

  ghost predicate State(cfg: Config, ends: seq<TunnelEnd>, tunnels: seq<seq<nat>>, memo: Memo) {
    && Listed(ends, tunnels) && Paired(cfg, ends)
    && Present(cfg, ends, |cfg.conns|, |cfg.conns|)
    && (forall i :: 0 <= i < |ends| ==> MarkOk(cfg, ends[i], memo))
    && (forall k :: k in memo ==> HasKey(ends, k))
  }

  /** Marked ends are left alone. */
  ghost predicate Frozen(ends: seq<TunnelEnd>, ends': seq<TunnelEnd>) {
    && |ends| <= |ends'|
    && forall i :: 0 <= i < |ends| ==>
         KeyOf(ends'[i]) == KeyOf(ends[i]) && (ends[i].expanded != 0 ==> ends'[i] == ends[i])
  }

  ghost predicate FrozenBut(ends: seq<TunnelEnd>, ends': seq<TunnelEnd>, te: nat) {
    && |ends| <= |ends'|
    && forall i :: 0 <= i < |ends| ==>
         KeyOf(ends'[i]) == KeyOf(ends[i]) && (i != te && ends[i].expanded != 0 ==> ends'[i] == ends[i])
  }

  lemma MarkAt(cfg: Config, ends: seq<TunnelEnd>, tunnels: seq<seq<nat>>, memo: Memo, i: nat)
    requires State(cfg, ends, tunnels, memo) && i < |ends|
    ensures MarkOk(cfg, ends[i], memo)
  {
  }

  lemma FrozenSelf(ends: seq<TunnelEnd>)
    ensures Frozen(ends, ends)
  {
  }

  lemma FrozenTrans(a: seq<TunnelEnd>, b: seq<TunnelEnd>, c: seq<TunnelEnd>)
    requires Frozen(a, b) && Frozen(b, c)
    ensures Frozen(a, c)
  {
  }

  lemma FrozenAt(ends: seq<TunnelEnd>, ends': seq<TunnelEnd>, te: nat)
    requires Frozen(ends, ends') && te < |ends| && ends[te].expanded != 0
    ensures te < |ends'| && ends'[te] == ends[te]
  {
  }

  /** Changing one end's mark, and its key's memo entry with it. */
  lemma Remark(cfg: Config, ends: seq<TunnelEnd>, ends': seq<TunnelEnd>, tunnels: seq<seq<nat>>,
               memo: Memo, memo': Memo, te: nat)
    requires State(cfg, ends, tunnels, memo) && te < |ends| == |ends'|
    requires forall i :: 0 <= i < |ends| && i != te ==> ends'[i] == ends[i]
    requires KeyOf(ends'[te]) == KeyOf(ends[te]) && ends'[te].other == ends[te].other
    requires forall k :: k != KeyOf(ends[te]) ==> (k in memo' <==> k in memo) && (k in memo ==> memo'[k] == memo[k])
    requires MarkOk(cfg, ends'[te], memo')
    ensures State(cfg, ends', tunnels, memo')
  {
    SameKeysListed(ends, ends', tunnels);
    SameKeysPaired(cfg, ends, ends');
    forall q | HasKey(ends, q) ensures HasKey(ends', q) { KeyStays(ends, ends', q); }
    forall i | 0 <= i < |ends'| ensures MarkOk(cfg, ends'[i], memo') {
      if i != te { assert MarkOk(cfg, ends[i], memo) && KeyOf(ends[i]) != KeyOf(ends[te]); }
    }
    forall k | k in memo' ensures HasKey(ends', k) {
      if k == KeyOf(ends[te]) { assert KeyOf(ends'[te]) == k; }
    }
  }

  lemma Begin(cfg: Config, ends0: seq<TunnelEnd>, ends: seq<TunnelEnd>, tunnels: seq<seq<nat>>, memo: Memo, te: nat)
    requires State(cfg, ends0, tunnels, memo) && te < |ends0| && ends0[te].expanded == 0
    requires ends == ends0[te := ends0[te].(expanded := 1, correspond := [])]
    ensures State(cfg, ends, tunnels, memo[KeyOf(ends0[te]) := Busy]) && FrozenBut(ends0, ends, te)
    ensures forall q :: q in ends0[te].correspond ==> Key(q, ends0[te].isoutput) in cfg.Universe()
    ensures ends0[te].correspond == cfg.Beyond(KeyOf(ends0[te])) && KeyOf(ends0[te]) !in memo
  {
    hide Listed, Paired, HasKey;
    assert MarkOk(cfg, ends0[te], memo);
    Remark(cfg, ends0, ends, tunnels, memo, memo[KeyOf(ends0[te]) := Busy], te);
  }

  lemma Finish(cfg: Config, ends0: seq<TunnelEnd>, ends1: seq<TunnelEnd>, ends: seq<TunnelEnd>,
               tunnels: seq<seq<nat>>, memo: Memo, te: nat)
    requires State(cfg, ends1, tunnels, memo) && te < |ends0| && te < |ends1| && ends1[te].expanded == 1
    requires ends0[te].expanded == 0 && FrozenBut(ends0, ends1, te)
    requires ends == ends1[te := ends1[te].(expanded := 2)]
    ensures State(cfg, ends, tunnels, memo[KeyOf(ends1[te]) := Done(ends1[te].correspond)]) && Frozen(ends0, ends)
  {
    hide Listed, Paired, HasKey;
    assert MarkOk(cfg, ends1[te], memo);
    Remark(cfg, ends1, ends, tunnels, memo, memo[KeyOf(ends1[te]) := Done(ends1[te].correspond)], te);
  }

  lemma Append(cfg: Config, ends0: seq<TunnelEnd>, ends1: seq<TunnelEnd>, ends2: seq<TunnelEnd>, ends: seq<TunnelEnd>,
               tunnels: seq<seq<nat>>, memo: Memo, te: nat)
    requires State(cfg, ends2, tunnels, memo) && te < |ends0| && te < |ends2| && ends2[te].expanded == 1
    requires FrozenBut(ends0, ends1, te) && Frozen(ends1, ends2)
    requires |ends| == |ends2| && ends == ends2[te := ends2[te].(correspond := ends[te].correspond)]
    ensures State(cfg, ends, tunnels, memo) && FrozenBut(ends0, ends, te)
  {
    hide Listed, Paired, HasKey;
    assert MarkOk(cfg, ends2[te], memo);
    Remark(cfg, ends2, ends, tunnels, memo, memo, te);
  }

  /** Ends made on demand during the second level change nothing: nothing is
      connected to them. */
  lemma StateExtended(cfg: Config, ends0: seq<TunnelEnd>, tunnels0: seq<seq<nat>>, ends: seq<TunnelEnd>,
                      tunnels: seq<seq<nat>>, memo: Memo, k: Key)
    requires State(cfg, ends0, tunnels0, memo) && Listed(ends, tunnels) && Paired(cfg, ends)
    requires Extended(cfg, ends0, ends, k)
    ensures State(cfg, ends, tunnels, memo) && Frozen(ends0, ends)
  {
    var n := |cfg.conns|;
    assert cfg.conns[..n] == cfg.conns;
    forall q | HasKey(ends0, q) ensures HasKey(ends, q) { KeyStays(ends0, ends, q); }
    forall i | 0 <= i < |ends| ensures MarkOk(cfg, ends[i], memo) {
      if i < |ends0| {
        assert ends[i] == ends0[i];
      } else {
        var e := ends[i];
        assert KeyOf(e) == k || KeyOf(e) == cfg.Partner(k);
        PartnerMissing(cfg, ends0, k);
        PartnerTwice(cfg, k);
        NewEndMissedNothing(cfg, ends0, KeyOf(e), n, n);
      }
    }
  }

  // ----- First-level expansion ----------------------------------------------

  /** Ends on the output side have seen `nt` connections, those on the input side
      `nf`; each knows what was connected to its partner so far. */
  ghost predicate CutAt(cfg: Config, e: TunnelEnd, nt: nat, nf: nat)
    requires nt <= |cfg.conns| && nf <= |cfg.conns| && cfg.Linked(KeyOf(e))
  {
    && e.expanded == 0
    && e.correspond == Opposite(cfg.conns[..if e.isoutput then nt else nf], cfg.Partner(KeyOf(e)))
  }

  ghost predicate Present(cfg: Config, ends: seq<TunnelEnd>, nt: nat, nf: nat)
    requires nt <= |cfg.conns| && nf <= |cfg.conns|
  {
    && (forall j :: 0 <= j < nt && cfg.Linked(Key(cfg.conns[j].to, false)) ==>
          HasKey(ends, Key(cfg.conns[j].to, false)))
    && (forall j :: 0 <= j < nf && cfg.Linked(Key(cfg.conns[j].from, true)) ==>
          HasKey(ends, Key(cfg.conns[j].from, true)))
  }

  ghost predicate Cut(cfg: Config, ends: seq<TunnelEnd>, nt: nat, nf: nat)
    requires nt <= |cfg.conns| && nf <= |cfg.conns|
  {
    && Present(cfg, ends, nt, nf)
    && (forall i :: 0 <= i < |ends| ==> cfg.Linked(KeyOf(ends[i])) && CutAt(cfg, ends[i], nt, nf))
  }

  lemma PairAt(cfg: Config, ends: seq<TunnelEnd>, i: nat)
    requires Paired(cfg, ends) && i < |ends|
    ensures PairOk(cfg, ends, i) && ends[i].other != i && cfg.Valid()
  {
    assert PairOk(cfg, ends, i);
  }

  lemma LinkedAreTunnels(cfg: Config, ends: seq<TunnelEnd>, k: Key)
    requires Paired(cfg, ends) && k.port.idx !in cfg.tunnels
    ensures !cfg.Linked(k)
  {
  }

  lemma SameKeysPaired(cfg: Config, ends: seq<TunnelEnd>, ends': seq<TunnelEnd>)
    requires Paired(cfg, ends) && |ends'| == |ends|
    requires forall i :: 0 <= i < |ends| ==> KeyOf(ends'[i]) == KeyOf(ends[i]) && ends'[i].other == ends[i].other
    ensures Paired(cfg, ends')
  {
    forall i | 0 <= i < |ends'| ensures PairOk(cfg, ends', i) { assert PairOk(cfg, ends, i); }
    forall d, a | a in cfg.Link(d) ensures HasKey(ends', Key(Port(a, 0), d)) {
      KeyStays(ends, ends', Key(Port(a, 0), d));
    }
  }

  lemma CutStart(cfg: Config, ends: seq<TunnelEnd>)
    requires Paired(cfg, ends) && Untouched(ends, 0)
    ensures Cut(cfg, ends, 0, 0)
  {
    forall i | 0 <= i < |ends| ensures cfg.Linked(KeyOf(ends[i])) && CutAt(cfg, ends[i], 0, 0) {
      assert PairOk(cfg, ends, i);
    }
  }

  lemma OppositeNone(conns: seq<Conn>, k: Key)
    requires forall c :: c in conns ==> c.Side(k.isoutput) != k.port
    ensures Opposite(conns, k) == []
  {
    if Opposite(conns, k) != [] { assert Opposite(conns, k)[0] in Opposite(conns, k); }
  }

  lemma OppositeNext(conns: seq<Conn>, n: nat, k: Key)
    requires n < |conns|
    ensures Opposite(conns[..n + 1], k) ==
              Opposite(conns[..n], k) + if conns[n].Side(k.isoutput) == k.port then [conns[n].Side(!k.isoutput)] else []
  {
    assert conns[..n + 1][..n] == conns[..n];
  }

  /** A newly made end has missed no connection: its partner was not connected
      either, or both would have been made then. */
  lemma NewEndMissedNothing(cfg: Config, ends0: seq<TunnelEnd>, k: Key, nt: nat, nf: nat)
    requires Paired(cfg, ends0) && nt <= |cfg.conns| && nf <= |cfg.conns| && Present(cfg, ends0, nt, nf)
    requires cfg.Linked(k) && !HasKey(ends0, k)
    ensures Opposite(cfg.conns[..if k.isoutput then nt else nf], cfg.Partner(k)) == []
  {
    var p := cfg.Partner(k);
    PartnerMissing(cfg, ends0, k);
    PartnerTwice(cfg, k);
    var seen := cfg.conns[..if k.isoutput then nt else nf];
    forall c | c in seen ensures c.Side(p.isoutput) != p.port {
      var j :| 0 <= j < |seen| && seen[j] == c;
      assert cfg.conns[j] == c;
    }
    OppositeNone(seen, p);
  }

  lemma NewEndLinked(cfg: Config, ends0: seq<TunnelEnd>, ends: seq<TunnelEnd>, k: Key, i: nat)
    requires Extended(cfg, ends0, ends, k) && |ends0| <= i < |ends|
    ensures cfg.Linked(k) && !HasKey(ends0, k)
    ensures KeyOf(ends[i]) == k || KeyOf(ends[i]) == cfg.Partner(k)
    ensures ends[i].expanded == 0 && ends[i].correspond == []
  {
    assert KeyOf(ends[i]) == KeyOf(ends[i]);
  }

  lemma CutExtended(cfg: Config, ends0: seq<TunnelEnd>, ends: seq<TunnelEnd>, k: Key, nt: nat, nf: nat)
    requires Paired(cfg, ends0) && nt <= |cfg.conns| && nf <= |cfg.conns| && Cut(cfg, ends0, nt, nf)
    requires Extended(cfg, ends0, ends, k)
    ensures Cut(cfg, ends, nt, nf)
  {
    forall q | HasKey(ends0, q) ensures HasKey(ends, q) { KeyStays(ends0, ends, q); }
    forall i | 0 <= i < |ends| ensures cfg.Linked(KeyOf(ends[i])) && CutAt(cfg, ends[i], nt, nf) {
      if i < |ends0| {
        assert ends[i] == ends0[i];
      } else {
        NewEndLinked(cfg, ends0, ends, k, i);
        PartnerMissing(cfg, ends0, k);
        PartnerTwice(cfg, k);
        NewEndMissedNothing(cfg, ends0, KeyOf(ends[i]), nt, nf);
      }
    }
  }

  lemma CutUnlinked(cfg: Config, ends: seq<TunnelEnd>, k: Key, n: nat, nt: nat, nf: nat)
    requires Paired(cfg, ends) && nt <= |cfg.conns| && nf <= |cfg.conns| && Cut(cfg, ends, nt, nf)
    requires n < |cfg.conns| && n == (if k.isoutput then nf else nt) && cfg.conns[n].Side(k.isoutput) == k.port
    requires !cfg.Linked(k)
    ensures if k.isoutput then Cut(cfg, ends, nt, nf + 1) else Cut(cfg, ends, nt + 1, nf)
  {
    forall i | 0 <= i < |ends| && ends[i].isoutput != k.isoutput
      ensures if k.isoutput then CutAt(cfg, ends[i], nt, nf + 1) else CutAt(cfg, ends[i], nt + 1, nf)
    {
      var p := cfg.Partner(KeyOf(ends[i]));
      PartnerTwice(cfg, KeyOf(ends[i]));
      assert p != k;
      OppositeNext(cfg.conns, n, p);
    }
  }

  lemma CutPushed(cfg: Config, ends: seq<TunnelEnd>, ends': seq<TunnelEnd>, te: nat, n: nat, nt: nat, nf: nat)
    requires Paired(cfg, ends) && nt <= |cfg.conns| && nf <= |cfg.conns| && Cut(cfg, ends, nt, nf)
    requires UniqueKeys(ends) && te < |ends| && PairOk(cfg, ends, te)
    requires n < |cfg.conns| && n == (if ends[te].isoutput then nf else nt)
    requires cfg.conns[n].Side(ends[te].isoutput) == ends[te].port
    requires var o := ends[te].other;
             ends' == ends[o := ends[o].(correspond := ends[o].correspond + [cfg.conns[n].Side(!ends[te].isoutput)])]
    ensures if ends[te].isoutput then Cut(cfg, ends', nt, nf + 1) else Cut(cfg, ends', nt + 1, nf)
  {
    var k := KeyOf(ends[te]);
    forall q | HasKey(ends, q) ensures HasKey(ends', q) { KeyStays(ends, ends', q); }
    assert HasKey(ends', k) by { assert KeyOf(ends'[te]) == k; }
    hide HasKey, PairOk, Paired;
    forall i | 0 <= i < |ends|
      ensures cfg.Linked(KeyOf(ends'[i]))
      ensures if k.isoutput then CutAt(cfg, ends'[i], nt, nf + 1) else CutAt(cfg, ends'[i], nt + 1, nf)
    {
      CutPushedAt(cfg, ends, ends', te, n, nt, nf, i);
    }
  }

  lemma CutPushedAt(cfg: Config, ends: seq<TunnelEnd>, ends': seq<TunnelEnd>, te: nat, n: nat, nt: nat, nf: nat, i: nat)
    requires Paired(cfg, ends) && nt <= |cfg.conns| && nf <= |cfg.conns|
    requires UniqueKeys(ends) && te < |ends| && PairOk(cfg, ends, te)
    requires n < |cfg.conns| && n == (if ends[te].isoutput then nf else nt)
    requires cfg.conns[n].Side(ends[te].isoutput) == ends[te].port
    requires var o := ends[te].other;
             ends' == ends[o := ends[o].(correspond := ends[o].correspond + [cfg.conns[n].Side(!ends[te].isoutput)])]
    requires i < |ends| && cfg.Linked(KeyOf(ends[i])) && CutAt(cfg, ends[i], nt, nf)
    ensures cfg.Linked(KeyOf(ends'[i]))
    ensures if ends[te].isoutput then CutAt(cfg, ends'[i], nt, nf + 1) else CutAt(cfg, ends'[i], nt + 1, nf)
  {
    var k, o := KeyOf(ends[te]), ends[te].other;
    var p := cfg.Partner(KeyOf(ends[i]));
    PartnerTwice(cfg, KeyOf(ends[i]));
    PartnerTwice(cfg, k);
    assert KeyOf(ends[i]) == KeyOf(ends[o]) <==> i == o;
    OppositeNext(cfg.conns, n, p);
  }

  function Fresh(k: Key): TunnelEnd { TunnelEnd(k.port, k.isoutput, -1, 0, []) }

  /** In a paired table an element side has a tunnel exactly when its port 0 does. */
  lemma LinkedIffPresent(cfg: Config, ends: seq<TunnelEnd>, k: Key)
    requires Paired(cfg, ends) && k.port.port == 0
    ensures cfg.Linked(k) <==> HasKey(ends, k)
  {
    if HasKey(ends, k) {
      var i :| 0 <= i < |ends| && KeyOf(ends[i]) == k;
      assert PairOk(cfg, ends, i);
    }
  }

  lemma OldKeyIsPaired(cfg: Config, ends0: seq<TunnelEnd>, ends: seq<TunnelEnd>, tunnels: seq<seq<nat>>, k: Key,
                       te: nat)
    requires Paired(cfg, ends0) && ends0 <= ends && Listed(ends, tunnels)
    requires te < |ends| && KeyOf(ends[te]) == k
    ensures HasKey(ends0, k) ==> ends[te].other >= 0
  {
    if HasKey(ends0, k) {
      var i :| 0 <= i < |ends0| && KeyOf(ends0[i]) == k;
      assert PairOk(cfg, ends0, i) && ends[i] == ends0[i];
    }
  }

  lemma PairStays(cfg: Config, cfg': Config, ends0: seq<TunnelEnd>, ends: seq<TunnelEnd>, i: nat)
    requires i < |ends0| && PairOk(cfg, ends0, i) && ends0 <= ends
    requires forall d, a :: a in cfg.Link(d) ==> a in cfg'.Link(d) && cfg'.Link(d)[a] == cfg.Link(d)[a]
    ensures PairOk(cfg', ends, i)
  {
    assert ends[i] == ends0[i] && ends[ends0[i].other] == ends0[ends0[i].other];
  }

  /** The two tunnels of a compound element, once paired, extend the table. */
  lemma NewTunnels(cfg: Config, cfg': Config, ends0: seq<TunnelEnd>, ends: seq<TunnelEnd>,
                   name: int, input: int, output: int)
    requires Paired(cfg, ends0) && name != input && name != output && input != output
    requires name !in cfg.inLink && output !in cfg.inLink && input !in cfg.outLink && name !in cfg.outLink
    requires cfg' == cfg.(tunnels := cfg.tunnels + {name, input, output},
                          inLink := cfg.inLink[name := input][output := name],
                          outLink := cfg.outLink[input := name][name := output])
    requires var n := |ends0|;
             ends == ends0 + [TunnelEnd(Port(name, 0), false, n + 1, 0, []), TunnelEnd(Port(input, 0), true, n, 0, []),
                              TunnelEnd(Port(output, 0), false, n + 3, 0, []),
                              TunnelEnd(Port(name, 0), true, n + 2, 0, [])]
    ensures Paired(cfg', ends)
    ensures Untouched(ends0, 0) ==> Untouched(ends, 0)
  {
    var n := |ends0|;
    NewLinksValid(cfg, cfg', name, input, output);
    assert ends[n + 0] == TunnelEnd(Port(name, 0), false, n + 1, 0, []);
    assert ends[n + 1] == TunnelEnd(Port(input, 0), true, n, 0, []);
    assert ends[n + 2] == TunnelEnd(Port(output, 0), false, n + 3, 0, []);
    assert ends[n + 3] == TunnelEnd(Port(name, 0), true, n + 2, 0, []);
    forall i | 0 <= i < |ends| ensures PairOk(cfg', ends, i) {
      if i < n {
        assert PairOk(cfg, ends0, i);
        PairStays(cfg, cfg', ends0, ends, i);
      }
    }
    forall d, a | a in cfg'.Link(d) ensures HasKey(ends, Key(Port(a, 0), d)) {
      var k := Key(Port(a, 0), d);
      if a in cfg.Link(d) {
        KeyStays(ends0, ends, k);
      } else {
        assert k == KeyOf(ends[n]) || k == KeyOf(ends[n + 1]) || k == KeyOf(ends[n + 2]) || k == KeyOf(ends[n + 3]);
      }
    }
  }

  lemma NewLinksValid(cfg: Config, cfg': Config, name: int, input: int, output: int)
    requires cfg.Valid() && name != input && name != output && input != output
    requires name !in cfg.inLink && output !in cfg.inLink && input !in cfg.outLink && name !in cfg.outLink
    requires cfg' == cfg.(tunnels := cfg.tunnels + {name, input, output},
                          inLink := cfg.inLink[name := input][output := name],
                          outLink := cfg.outLink[input := name][name := output])
    ensures cfg'.Valid()
    ensures forall d, a :: a in cfg.Link(d) ==> a in cfg'.Link(d) && cfg'.Link(d)[a] == cfg.Link(d)[a]
  {
  }

  /** Beyond `ends0` there is at most one new pair of untouched ends, for k and
      its partner. */
  ghost predicate Extended(cfg: Config, ends0: seq<TunnelEnd>, ends: seq<TunnelEnd>, k: Key) {
    && ends0 <= ends && Untouched(ends, |ends0|)
    && (HasKey(ends0, k) ==> ends == ends0)
    && (forall i :: |ends0| <= i < |ends| ==>
          cfg.Linked(k) && (KeyOf(ends[i]) == k || KeyOf(ends[i]) == cfg.Partner(k)))
  }

  lemma OnlyInItsList(ends: seq<TunnelEnd>, tunnels: seq<seq<nat>>, l: nat, k: Key)
    requires Listed(ends, tunnels) && l < |tunnels| && ends[tunnels[l][0]].port.idx == k.port.idx
    requires HasKey(ends, k)
    ensures exists j :: 0 <= j < |tunnels[l]| && tunnels[l][j] < |ends| && KeyOf(ends[tunnels[l][j]]) == k
  {
    var i :| 0 <= i < |ends| && KeyOf(ends[i]) == k;
    assert InLists(tunnels, i);
    var m :| 0 <= m < |tunnels| && i in tunnels[m];
    assert ListOk(ends, tunnels[m]);
    assert m == l;
  }

  lemma SameKeysListed(ends: seq<TunnelEnd>, ends': seq<TunnelEnd>, tunnels: seq<seq<nat>>)
    requires Listed(ends, tunnels) && |ends'| == |ends|
    requires forall i :: 0 <= i < |ends| ==> KeyOf(ends'[i]) == KeyOf(ends[i])
    ensures Listed(ends', tunnels)
  {
    forall l | 0 <= l < |tunnels| ensures ListOk(ends', tunnels[l]) { assert ListOk(ends, tunnels[l]); }
  }

  /** Ends come in pairs, so a missing end has a missing partner. */
  lemma PartnerMissing(cfg: Config, ends: seq<TunnelEnd>, k: Key)
    requires Paired(cfg, ends) && cfg.Linked(k) && !HasKey(ends, k)
    ensures !HasKey(ends, cfg.Partner(k))
  {
    forall i | 0 <= i < |ends| ensures KeyOf(ends[i]) != cfg.Partner(k) {
      assert PairOk(cfg, ends, i);
      PartnerTwice(cfg, k);
    }
  }

  lemma PushedKey(ends: seq<TunnelEnd>, e: TunnelEnd, k: Key)
    requires !HasKey(ends, k) && KeyOf(e) != k
    ensures !HasKey(ends + [e], k)
  {
  }

  lemma KeyStays(ends: seq<TunnelEnd>, ends': seq<TunnelEnd>, k: Key)
    requires HasKey(ends, k) && |ends| <= |ends'|
    requires forall i :: 0 <= i < |ends| ==> KeyOf(ends'[i]) == KeyOf(ends[i])
    ensures HasKey(ends', k)
  {
    var i :| 0 <= i < |ends| && KeyOf(ends[i]) == k;
    assert KeyOf(ends'[i]) == k;
  }

  /** Two fresh ends paired with each other complete the table. */
  lemma NewPair(cfg: Config, ends0: seq<TunnelEnd>, ends: seq<TunnelEnd>, k: Key)
    requires Paired(cfg, ends0) && cfg.Linked(k) && !HasKey(ends0, k)
    requires |ends| == |ends0| + 2 && ends[..|ends0|] == ends0
    requires ends[|ends0|] == TunnelEnd(k.port, k.isoutput, |ends0| + 1, 0, [])
    requires ends[|ends0| + 1] == TunnelEnd(cfg.Partner(k).port, !k.isoutput, |ends0|, 0, [])
    ensures Paired(cfg, ends) && Extended(cfg, ends0, ends, k)
  {
    PartnerTwice(cfg, k);
    forall i | 0 <= i < |ends| ensures PairOk(cfg, ends, i) {
      if i < |ends0| {
        assert PairOk(cfg, ends0, i);
        assert ends[i] == ends0[i] && ends[ends0[i].other] == ends0[ends0[i].other];
      }
    }
    forall d, a | a in cfg.Link(d) ensures HasKey(ends, Key(Port(a, 0), d)) {
      KeyStays(ends0, ends, Key(Port(a, 0), d));
    }
  }

  // ----- Facts about lists --------------------------------------------------

  lemma ListGrows(ends: seq<TunnelEnd>, ends': seq<TunnelEnd>, list: seq<nat>)
    requires ListOk(ends, list) && ends <= ends'
    ensures ListOk(ends', list) && ends'[list[0]] == ends[list[0]]
  {
  }

  lemma UniqueGrows(ends: seq<TunnelEnd>, e: TunnelEnd)
    requires UniqueKeys(ends) && !HasKey(ends, KeyOf(e))
    ensures UniqueKeys(ends + [e])
  {
    var t := ends + [e];
    forall i, j | 0 <= i < j < |t| ensures KeyOf(t[i]) != KeyOf(t[j]) {
      assert t[i] == ends[i];
      assert j < |ends| ==> t[j] == ends[j];
    }
  }

  lemma PushKeepsListed(ends: seq<TunnelEnd>, tunnels: seq<seq<nat>>, e: TunnelEnd, l: nat)
    requires Listed(ends, tunnels) && !HasKey(ends, KeyOf(e))
    requires l < |tunnels| && ends[tunnels[l][0]].port.idx == e.port.idx
    ensures Listed(ends + [e], tunnels[l := [|ends|] + tunnels[l]])
  {
    var te, ends', tunnels' := |ends|, ends + [e], tunnels[l := [|ends|] + tunnels[l]];
    UniqueGrows(ends, e);
    forall m | 0 <= m < |tunnels| ensures ListOk(ends', tunnels'[m])
      && ends'[tunnels'[m][0]].port.idx == ends[tunnels[m][0]].port.idx
    {
      ListGrows(ends, ends', tunnels[m]);
      if m == l {
        assert forall i :: 0 < i < |tunnels'[l]| ==> tunnels'[l][i] == tunnels[l][i - 1];
      }
    }
    forall id | 0 <= id < |ends'| ensures InLists(tunnels', id) {
      if id == te {
        assert tunnels'[l][0] == te;
      } else {
        assert InLists(tunnels, id);
        var m :| 0 <= m < |tunnels| && id in tunnels[m];
        assert id in tunnels'[m];
      }
    }
  }

  /** An element without a list has no ends. */
  lemma NoListNoEnds(ends: seq<TunnelEnd>, tunnels: seq<seq<nat>>, k: Key)
    requires Listed(ends, tunnels)
    requires forall m :: 0 <= m < |tunnels| ==> ends[tunnels[m][0]].port.idx != k.port.idx
    ensures !HasKey(ends, k)
  {
    forall i | 0 <= i < |ends| ensures KeyOf(ends[i]) != k {
      assert InLists(tunnels, i);
      var m :| 0 <= m < |tunnels| && i in tunnels[m];
      assert ListOk(ends, tunnels[m]);
      assert ends[i].port.idx == ends[tunnels[m][0]].port.idx;
    }
  }

  lemma OpenedList(ends: seq<TunnelEnd>, tunnels: seq<seq<nat>>, e: TunnelEnd, l: nat, m: nat)
    requires Listed(ends, tunnels) && l <= |tunnels| && m <= |tunnels|
    ensures var tunnels', ends' := tunnels[..l] + [[|ends|]] + tunnels[l..], ends + [e];
            && ListOk(ends', tunnels'[m])
            && ends'[tunnels'[m][0]].port.idx ==
                 if m < l then ends[tunnels[m][0]].port.idx
                 else if m == l then e.port.idx else ends[tunnels[m - 1][0]].port.idx
  {
    if m < l { ListGrows(ends, ends + [e], tunnels[m]); }
    else if m > l { ListGrows(ends, ends + [e], tunnels[m - 1]); }
  }

  lemma OpenKeepsListed(ends: seq<TunnelEnd>, tunnels: seq<seq<nat>>, e: TunnelEnd, l: nat)
    requires Listed(ends, tunnels) && l <= |tunnels|
    requires forall m :: 0 <= m < |tunnels| ==>
               (m < l ==> ends[tunnels[m][0]].port.idx < e.port.idx)
               && (m >= l ==> ends[tunnels[m][0]].port.idx > e.port.idx)
    ensures Listed(ends + [e], tunnels[..l] + [[|ends|]] + tunnels[l..])
    ensures !HasKey(ends, KeyOf(e))
  {
    var te, ends', tunnels' := |ends|, ends + [e], tunnels[..l] + [[|ends|]] + tunnels[l..];
    NoListNoEnds(ends, tunnels, KeyOf(e));
    UniqueGrows(ends, e);
    forall id | 0 <= id < |ends'| ensures InLists(tunnels', id) {
      OpenedHolds(tunnels, te, l, id) by { assert id < te ==> InLists(tunnels, id); }
    }
    hide InLists, UniqueKeys, HasKey;
    forall m | 0 <= m < |tunnels'| ensures ListOk(ends', tunnels'[m])
      && ends'[tunnels'[m][0]].port.idx ==
           if m < l then ends[tunnels[m][0]].port.idx
           else if m == l then e.port.idx else ends[tunnels[m - 1][0]].port.idx
    {
      OpenedList(ends, tunnels, e, l, m);
    }
  }

  lemma OpenedHolds(tunnels: seq<seq<nat>>, te: nat, l: nat, id: nat)
    requires l <= |tunnels| && (id == te || InLists(tunnels, id))
    ensures InLists(tunnels[..l] + [[te]] + tunnels[l..], id)
  {
    var tunnels' := tunnels[..l] + [[te]] + tunnels[l..];
    if id == te {
      assert tunnels'[l][0] == te;
    } else {
      var m :| 0 <= m < |tunnels| && id in tunnels[m];
      assert id in tunnels'[if m < l then m else m + 1];
    }
  }
}
