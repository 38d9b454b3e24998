/** When flattening loses a connection.

    A tunnel end that is met again while it is being expanded contributes nothing,
    and the shortened answers are kept.  This file shows that the condition under
    which TunnelGraph proves flattening exact cannot be weakened: where it fails,
    four more connections to real ports make the router miss a pair.
 */
module TunnelCycles {
  import opened Ports
  import opened TunnelGraph

  // ----- Ends that cannot know a port ---------------------------------------

  /** Only the end k has r right beyond it. */
  ghost predicate OnlyBeyond(cfg: Config, k: Key, r: Port) {
    && r.idx !in cfg.tunnels
    && forall w :: cfg.Linked(w) && w.isoutput == k.isoutput && w != k ==> r !in cfg.Beyond(w)
  }

  /** The ends that can be reached from s, without k. */
  ghost predicate Zone(cfg: Config, s: Key, k: Key, w: Key) {
    w != k && EdgeReach(cfg, s, w)
  }

  /** No finished end of the zone knows r, and none will learn it from k. */
  ghost predicate Blind(cfg: Config, memo: Memo, s: Key, k: Key, r: Port) {
    && k in memo
    && (forall w :: Zone(cfg, s, k, w) && w in memo && memo[w].Done? ==> r !in memo[w].ports)
    && (forall w :: Zone(cfg, s, k, w) && Edge(cfg, w, k) ==> w in memo || IsBusy(memo, k))
  }

  lemma {:induction false} ReachSide(cfg: Config, u: Key, v: Key, n: nat)
    requires EdgePath(cfg, u, v, n)
    ensures u.isoutput == v.isoutput
    decreases n
  {
    if n > 0 {
      var w :| EdgePath(cfg, u, w, n - 1) && Edge(cfg, w, v);
      ReachSide(cfg, u, w, n - 1);
    }
  }

  lemma ZoneSide(cfg: Config, s: Key, k: Key, w: Key)
    requires Zone(cfg, s, k, w)
    ensures s.isoutput == w.isoutput
  {
    var n: nat :| EdgePath(cfg, s, w, n);
    ReachSide(cfg, s, w, n);
  }

  lemma {:induction false} ExpandBlind(cfg: Config, memo: Memo, s: Key, k: Key, r: Port, x: Key)
    requires cfg.Linked(x) && x in cfg.Universe() && s.isoutput == k.isoutput
    requires OnlyBeyond(cfg, k, r) && Blind(cfg, memo, s, k, r)
    ensures var (m, out) := Expand(cfg, memo, x);
            Blind(cfg, m, s, k, r) && (Zone(cfg, s, k, x) ==> r !in out)
    decreases cfg.Universe() - memo.Keys, 0
  {
    if x !in memo {
      assert x in cfg.Universe() - memo.Keys && x !in cfg.Universe() - memo[x := Busy].Keys;
      var m0 := memo[x := Busy];
      assert Blind(cfg, m0, s, k, r);
      assert IsBusy(m0, k) <==> IsBusy(memo, k);
      ExpandListBlind(cfg, m0, s, k, r, x, cfg.Beyond(x));
    }
  }

  lemma {:induction false} ExpandListBlind(cfg: Config, memo: Memo, s: Key, k: Key, r: Port, x: Key, ports: seq<Port>)
    requires cfg.Linked(x) && s.isoutput == k.isoutput && OnlyBeyond(cfg, k, r) && Blind(cfg, memo, s, k, r)
    requires Zone(cfg, s, k, x) && Edge(cfg, x, k) ==> IsBusy(memo, k)
    requires forall q :: q in ports ==> q in cfg.Beyond(x) && Key(q, x.isoutput) in cfg.Universe()
    ensures var (m, out) := ExpandList(cfg, memo, ports, x.isoutput);
            Blind(cfg, m, s, k, r) && (Zone(cfg, s, k, x) ==> r !in out)
    decreases cfg.Universe() - memo.Keys, 2 + |ports|
  {
    if ports != [] {
      hide Blind, Zone, Edge, OnlyBeyond;
      var front, last := ports[..|ports| - 1], ports[|ports| - 1];
      ExpandListBlind(cfg, memo, s, k, r, x, front);
      var (m1, r1) := ExpandList(cfg, memo, front, x.isoutput);
      assert IsBusy(memo, k) ==> IsBusy(m1, k);
      ExpandConnectionBlind(cfg, m1, s, k, r, x, last);
    }
  }

  lemma {:induction false} ExpandConnectionBlind(cfg: Config, memo: Memo, s: Key, k: Key, r: Port, x: Key, q: Port)
    requires cfg.Linked(x) && s.isoutput == k.isoutput && OnlyBeyond(cfg, k, r) && Blind(cfg, memo, s, k, r)
    requires Zone(cfg, s, k, x) && Edge(cfg, x, k) ==> IsBusy(memo, k)
    requires q in cfg.Beyond(x) && Key(q, x.isoutput) in cfg.Universe()
    ensures var (m, out) := ExpandConnection(cfg, memo, q, x.isoutput);
            Blind(cfg, m, s, k, r) && (Zone(cfg, s, k, x) ==> r !in out)
    decreases cfg.Universe() - memo.Keys, 1
  {
    var y := Key(q, x.isoutput);
    if q.idx !in cfg.tunnels {
      if Zone(cfg, s, k, x) { ZoneSide(cfg, s, k, x); }
    } else if cfg.Linked(y) {
      assert Edge(cfg, x, y);
      if y != k {
        ExpandBlind(cfg, memo, s, k, r, y);
        if Zone(cfg, s, k, x) { ReachEdge(cfg, s, x, y); }
      }
    }
  }

  // ----- The first expansion ------------------------------------------------

  /** Finished ends have all their successors visited. */
  ghost predicate Closed(cfg: Config, memo: Memo) {
    forall k, v :: k in memo && memo[k].Done? && Edge(cfg, k, v) ==> v in memo
  }

  lemma {:induction false} ExpandClosed(cfg: Config, memo: Memo, k: Key)
    requires cfg.Linked(k) && k in cfg.Universe() && Closed(cfg, memo)
    ensures Closed(cfg, Expand(cfg, memo, k).0)
    decreases cfg.Universe() - memo.Keys, 0
  {
    if k !in memo {
      assert k in cfg.Universe() - memo.Keys && k !in cfg.Universe() - memo[k := Busy].Keys;
      var m0 := memo[k := Busy];
      ExpandListClosed(cfg, m0, cfg.Beyond(k), k.isoutput);
    }
  }

  lemma {:induction false} ExpandListClosed(cfg: Config, memo: Memo, ports: seq<Port>, d: bool)
    requires Closed(cfg, memo) && forall q :: q in ports ==> Key(q, d) in cfg.Universe()
    ensures Closed(cfg, ExpandList(cfg, memo, ports, d).0)
    decreases cfg.Universe() - memo.Keys, 2 + |ports|
  {
    if ports != [] {
      hide Closed;
      var front, last := ports[..|ports| - 1], ports[|ports| - 1];
      ExpandListClosed(cfg, memo, front, d);
      var m1 := ExpandList(cfg, memo, front, d).0;
      if last.idx in cfg.tunnels && cfg.Linked(Key(last, d)) { ExpandClosed(cfg, m1, Key(last, d)); }
    }
  }

  lemma {:induction false} VisitedAlong(cfg: Config, memo: Memo, k: Key, v: Key, n: nat)
    requires Closed(cfg, memo) && k in memo && EdgePath(cfg, k, v, n)
    requires forall g :: EdgeReach(cfg, k, g) && g in memo ==> memo[g].Done?
    ensures v in memo
    decreases n
  {
    if n > 0 {
      var w :| EdgePath(cfg, k, w, n - 1) && Edge(cfg, w, v);
      VisitedAlong(cfg, memo, k, w, n - 1);
      assert EdgeReach(cfg, k, w);
    }
  }

  /** Every way from the zone into k starts at an end that k leads back to. */
  ghost predicate Turning(cfg: Config, s: Key, k: Key) {
    forall w :: Zone(cfg, s, k, w) && Edge(cfg, w, k) ==> EdgeReach(cfg, k, w)
  }

  /** When k is the first of its cycles to be expanded, the others find nothing at
      k and keep that answer. */
  lemma EntryBlind(cfg: Config, memo: Memo, s: Key, k: Key, r: Port)
    requires cfg.Linked(k) && k in cfg.Universe() && s.isoutput == k.isoutput && OnlyBeyond(cfg, k, r)
    requires Turning(cfg, s, k) && Closed(cfg, memo)
    requires forall w :: EdgeReach(cfg, k, w) ==> w !in memo
    requires forall w :: Zone(cfg, s, k, w) && w in memo && memo[w].Done? ==> r !in memo[w].ports
    ensures Blind(cfg, Expand(cfg, memo, k).0, s, k, r) && Closed(cfg, Expand(cfg, memo, k).0)
  {
    ReachSelf(cfg, k);
    var m0 := memo[k := Busy];
    ExpandListBlind(cfg, m0, s, k, r, k, cfg.Beyond(k));
    ExpandClosed(cfg, memo, k);
    var (m, ports) := ExpandList(cfg, m0, cfg.Beyond(k), k.isoutput);
    var m' := Expand(cfg, memo, k).0;
    assert m' == m[k := Done(ports)];
    forall w | Zone(cfg, s, k, w) && Edge(cfg, w, k) ensures w in m' {
      var n: nat :| EdgePath(cfg, k, w, n);
      forall g | EdgeReach(cfg, k, g) && g in m' ensures m'[g].Done? {
        assert IsBusy(memo, g) <==> IsBusy(m', g);
      }
      VisitedAlong(cfg, m', k, w, n);
    }
  }

  /** Of two ends on one cycle, the one expanded second does not find what lies
      right beyond the first, although it leads there.  This is about a single
      expansion: the router may still get the connection from another one. */
  lemma CycleLosesPort(cfg: Config, u: Key, v: Key, b: Port)
    requires cfg.Valid() && u != v && u in cfg.Universe() && v in cfg.Universe()
    requires cfg.Linked(u) && cfg.Linked(v) && EdgeReach(cfg, u, v) && EdgeReach(cfg, v, u)
    requires b in cfg.Beyond(u) && OnlyBeyond(cfg, u, b)
    ensures Reaches(cfg, v.isoutput, v.port, b)
    ensures b !in Expand(cfg, Expand(cfg, map[], u).0, v).1
  {
    assert LeadsTo(cfg, u.isoutput, b, b, 0);
    BeyondReaches(cfg, u, b, b);
    var n: nat :| EdgePath(cfg, v, u, n);
    PathReaches(cfg, v, u, b, n);
    EntryBlind(cfg, map[], u, u, b);
    ExpandBlind(cfg, Expand(cfg, map[], u).0, u, u, b, v);
  }

  // ----- A pair that stays apart --------------------------------------------

  /** f leads only into the tunnel of u, t comes only out of that of v, and no
      connection goes straight from one tunnel to the other. */
  ghost predicate Apart(cfg: Config, u: Key, v: Key, f: Port, t: Port) {
    && cfg.Valid() && cfg.Linked(u) && cfg.Linked(v) && !u.isoutput && !v.isoutput
    && u != v && !Edge(cfg, u, v) && Conn(f, t) !in cfg.conns
    && OnlyBeyond(cfg, v, t) && OnlyBeyond(cfg, cfg.Partner(u), f)
  }

  /** Going forward only v knows t, going backward only u knows f. */
  ghost predicate Lost(cfg: Config, memo: Memo, u: Key, v: Key, f: Port, t: Port)
    requires cfg.Linked(u) && cfg.Linked(v)
  {
    Blind(cfg, memo, u, v, t) && Blind(cfg, memo, cfg.Partner(v), cfg.Partner(u), f)
  }

  /** A way to r ends at the only end that has r beyond it. */
  lemma {:induction false} OnlyWay(cfg: Config, d: bool, q: Port, r: Port, k: Key, n: nat)
    requires LeadsTo(cfg, d, q, r, n) && OnlyBeyond(cfg, k, r) && k.isoutput == d && n > 0
    ensures EdgeReach(cfg, Key(q, d), k)
    decreases n
  {
    var x := Key(q, d);
    var p :| p in cfg.Beyond(x) && LeadsTo(cfg, d, p, r, n - 1);
    if n == 1 {
      ReachSelf(cfg, k);
    } else {
      OnlyWay(cfg, d, p, r, k, n - 1);
      EdgeIsReach(cfg, x, Key(p, d));
      ReachTrans(cfg, x, Key(p, d), k);
    }
  }

  lemma OnlyWayFrom(cfg: Config, d: bool, q: Port, r: Port, k: Key)
    requires Reaches(cfg, d, q, r) && OnlyBeyond(cfg, k, r) && k.isoutput == d && q.idx in cfg.tunnels
    ensures EdgeReach(cfg, Key(q, d), k)
  {
    var n: nat :| LeadsTo(cfg, d, q, r, n);
    OnlyWay(cfg, d, q, r, k, n);
  }

  /** A connection touches a tunnel: what it brings lies beyond the other end. */
  lemma SideIsBeyond(cfg: Config, c: Conn, d: bool)
    requires cfg.Valid() && c in cfg.conns && cfg.Linked(Key(c.Side(d), d))
    ensures cfg.Linked(cfg.Partner(Key(c.Side(d), d)))
    ensures c.Side(!d) in cfg.Beyond(cfg.Partner(Key(c.Side(d), d)))
  {
    PartnerTwice(cfg, Key(c.Side(d), d));
  }

  lemma SamePartner(cfg: Config, k: Key, l: Key)
    requires cfg.Valid() && cfg.Linked(k) && cfg.Linked(l) && cfg.Partner(k) == cfg.Partner(l)
    ensures k == l
  {
    PartnerTwice(cfg, k);
    PartnerTwice(cfg, l);
  }

  /** A connection from a real port that could give the pair. */
  lemma RealSource(cfg: Config, u: Key, v: Key, f: Port, t: Port, c: Conn)
    requires Apart(cfg, u, v, f, t) && c in cfg.conns && c.from == f && cfg.Linked(Key(c.to, false))
    ensures Zone(cfg, u, v, Key(c.to, false))
  {
    SideIsBeyond(cfg, c, false);
    PartnerTwice(cfg, u);
    SamePartner(cfg, Key(c.to, false), u);
    ReachSelf(cfg, u);
  }

  lemma RealTarget(cfg: Config, u: Key, v: Key, f: Port, t: Port, c: Conn)
    requires Apart(cfg, u, v, f, t) && c in cfg.conns && c.to == t && cfg.Linked(Key(c.from, true))
    ensures Zone(cfg, cfg.Partner(v), cfg.Partner(u), Key(c.from, true))
  {
    var k := Key(c.from, true);
    SideIsBeyond(cfg, c, true);
    PartnerTwice(cfg, k);
    PartnerTwice(cfg, v);
    PartnerTwice(cfg, u);
    assert cfg.Partner(k) == v;
    ReachSelf(cfg, k);
  }

  /** A connection between two tunnels that leads on from u and on to v. */
  lemma BothTunnels(cfg: Config, u: Key, v: Key, f: Port, t: Port, c: Conn)
    requires Apart(cfg, u, v, f, t) && c in cfg.conns
    requires c.to.idx in cfg.tunnels && cfg.Linked(Key(c.from, true)) && cfg.Linked(Key(c.to, false))
    requires EdgeReach(cfg, Key(c.from, true), cfg.Partner(u)) && EdgeReach(cfg, Key(c.to, false), v)
    ensures Zone(cfg, u, v, Key(c.to, false)) || Zone(cfg, cfg.Partner(v), cfg.Partner(u), Key(c.from, true))
  {
    var k, l := Key(c.from, true), Key(c.to, false);
    PartnerTwice(cfg, k);
    PartnerTwice(cfg, l);
    PartnerTwice(cfg, u);
    PartnerTwice(cfg, v);
    SideIsBeyond(cfg, c, true);
    assert Edge(cfg, cfg.Partner(k), l);
    MirrorReach(cfg, k, cfg.Partner(u));
    ReachEdge(cfg, u, cfg.Partner(k), l);
    MirrorEdge(cfg, cfg.Partner(k), l);
    MirrorReach(cfg, l, v);
    ReachEdge(cfg, cfg.Partner(v), cfg.Partner(l), k);
  }

  lemma ConnectionMisses(cfg: Config, memo: Memo, u: Key, v: Key, f: Port, t: Port, c: Conn)
    requires Apart(cfg, u, v, f, t) && Lost(cfg, memo, u, v, f, t) && MemoSound(cfg, memo) && c in cfg.conns
    ensures Key(c.from, true) in cfg.Universe() && Key(c.to, false) in cfg.Universe()
    ensures var (m1, froms) := ExpandConnection(cfg, memo, c.from, true);
            var (m2, tos) := ExpandConnection(cfg, m1, c.to, false);
            Lost(cfg, m2, u, v, f, t) && !(f in froms && t in tos)
  {
    SidesInUniverse(cfg, c);
    var k, l := Key(c.from, true), Key(c.to, false);
    var (m1, froms) := ExpandConnection(cfg, memo, c.from, true);
    var (m2, tos) := ExpandConnection(cfg, m1, c.to, false);
    ExpandConnectionSound(cfg, memo, c.from, true);
    ExpandConnectionSound(cfg, m1, c.to, false);
    PortBlind(cfg, memo, u, v, f, t, c.from, true);
    PortBlind(cfg, m1, u, v, f, t, c.to, false);
    hide Lost, Apart, Zone, OnlyBeyond;
    ApartHas(cfg, u, v, f, t);
    assert c == Conn(c.from, c.to);
    if f in froms && t in tos {
      if c.from.idx !in cfg.tunnels && c.to.idx in cfg.tunnels {
        RealSource(cfg, u, v, f, t, c);
      } else if c.from.idx in cfg.tunnels && c.to.idx !in cfg.tunnels {
        RealTarget(cfg, u, v, f, t, c);
      } else if c.from.idx in cfg.tunnels {
        OnlyWayFrom(cfg, true, c.from, f, cfg.Partner(u));
        OnlyWayFrom(cfg, false, c.to, t, v);
        BothTunnels(cfg, u, v, f, t, c);
      }
    }
  }

  lemma ApartHas(cfg: Config, u: Key, v: Key, f: Port, t: Port)
    requires Apart(cfg, u, v, f, t)
    ensures OnlyBeyond(cfg, v, t) && OnlyBeyond(cfg, cfg.Partner(u), f) && Conn(f, t) !in cfg.conns
    ensures !v.isoutput && cfg.Partner(u).isoutput && f.idx !in cfg.tunnels && t.idx !in cfg.tunnels
  {
  }

  /** Expanding one port keeps the pair lost. */
  lemma PortBlind(cfg: Config, memo: Memo, u: Key, v: Key, f: Port, t: Port, q: Port, d: bool)
    requires Apart(cfg, u, v, f, t) && Lost(cfg, memo, u, v, f, t) && Key(q, d) in cfg.Universe()
    ensures var (m, out) := ExpandConnection(cfg, memo, q, d);
            && Lost(cfg, m, u, v, f, t)
            && (q.idx in cfg.tunnels && Zone(cfg, u, v, Key(q, d)) ==> t !in out)
            && (q.idx in cfg.tunnels && Zone(cfg, cfg.Partner(v), cfg.Partner(u), Key(q, d)) ==> f !in out)
  {
    hide Blind, Zone, OnlyBeyond, Edge;
    var k := Key(q, d);
    if q.idx in cfg.tunnels && cfg.Linked(k) {
      ExpandBlind(cfg, memo, u, v, t, k);
      ExpandBlind(cfg, memo, cfg.Partner(v), cfg.Partner(u), f, k);
    }
  }

  lemma {:induction false} FlattenMisses(cfg: Config, alive: set<int>, n0: nat, n: nat, u: Key, v: Key, f: Port,
                                         t: Port)
    requires Apart(cfg, u, v, f, t) && n0 <= n <= |cfg.conns|
    requires Lost(cfg, Flatten(cfg, alive, n0).0, u, v, f, t) && Conn(f, t) !in Flatten(cfg, alive, n0).1
    ensures Lost(cfg, Flatten(cfg, alive, n).0, u, v, f, t) && Conn(f, t) !in Flatten(cfg, alive, n).1
    decreases n
  {
    if n > n0 {
      hide Lost;
      FlattenMisses(cfg, alive, n0, n - 1, u, v, f, t);
      FlattenSound(cfg, alive, n - 1);
      var (memo, out) := Flatten(cfg, alive, n - 1);
      ConnectionMisses(cfg, memo, u, v, f, t, cfg.conns[n - 1]);
    }
  }

  /** Once the pair is lost in the memo, the router misses it. */
  lemma RouterMisses(cfg: Config, alive: set<int>, n0: nat, u: Key, v: Key, f: Port, t: Port)
    requires Apart(cfg, u, v, f, t) && n0 <= |cfg.conns|
    requires Lost(cfg, Flatten(cfg, alive, n0).0, u, v, f, t) && Conn(f, t) !in Flatten(cfg, alive, n0).1
    ensures !InRouter(cfg, alive, Conn(f, t))
  {
    FlattenMisses(cfg, alive, n0, |cfg.conns|, u, v, f, t);
  }

  // ----- Two ends that no single turn connects -------------------------------

  /** v can be reached from u, not by one edge, and neither the first nor the last
      edge of a way leaves a cycle. */
  ghost predicate Stuck(cfg: Config, u: Key, v: Key) {
    && cfg.Linked(u) && cfg.Linked(v) && u.isoutput == v.isoutput
    && u != v && !Edge(cfg, u, v) && EdgeReach(cfg, u, v)
    && (forall w :: Edge(cfg, u, w) && EdgeReach(cfg, w, v) ==> EdgeReach(cfg, w, u))
    && (forall w :: Edge(cfg, w, v) && EdgeReach(cfg, u, w) ==> EdgeReach(cfg, v, w))
  }

  ghost function Nodes(cfg: Config): set<Key> {
    cfg.Universe() + set k | k in cfg.Universe() && cfg.Linked(k) :: cfg.Partner(k)
  }

  ghost function Between(cfg: Config, u: Key, v: Key): set<Key> {
    set w | w in Nodes(cfg) && EdgeReach(cfg, u, w) && EdgeReach(cfg, w, v)
  }

  lemma EdgeNodes(cfg: Config, u: Key, v: Key)
    requires cfg.Valid() && Edge(cfg, u, v)
    ensures u in Nodes(cfg) && v in Nodes(cfg)
  {
    var far := cfg.Partner(u);
    PartnerTwice(cfg, u);
    var c :| c in cfg.conns && c.Side(far.isoutput) == far.port && c.Side(!far.isoutput) == v.port;
    SidesInUniverse(cfg, c);
    assert far in cfg.Universe() && v in cfg.Universe();
  }

  lemma StrictlyFewer<T>(a: set<T>, b: set<T>, x: T)
    requires a <= b && x in b && x !in a
    ensures |a| < |b|
  {
    assert b == a + (b - a) && x in b - a;
  }

  /** Stepping down shrinks what lies between. */
  lemma FewerBelow(cfg: Config, u: Key, w: Key, v: Key)
    requires cfg.Valid() && Down(cfg, u, w) && EdgeReach(cfg, w, v)
    ensures |Between(cfg, w, v)| < |Between(cfg, u, v)|
  {
    EdgeNodes(cfg, u, w);
    EdgeIsReach(cfg, u, w);
    ReachTrans(cfg, u, w, v);
    ReachSelf(cfg, u);
    forall x | x in Between(cfg, w, v) ensures x in Between(cfg, u, v) { ReachTrans(cfg, u, w, x); }
    StrictlyFewer(Between(cfg, w, v), Between(cfg, u, v), u);
  }

  lemma FewerAbove(cfg: Config, u: Key, w: Key, v: Key)
    requires cfg.Valid() && EdgeReach(cfg, u, w) && Down(cfg, w, v)
    ensures |Between(cfg, u, w)| < |Between(cfg, u, v)|
  {
    EdgeNodes(cfg, w, v);
    EdgeIsReach(cfg, w, v);
    ReachTrans(cfg, u, w, v);
    ReachSelf(cfg, v);
    forall x | x in Between(cfg, u, w) ensures x in Between(cfg, u, v) { ReachTrans(cfg, x, w, v); }
    StrictlyFewer(Between(cfg, u, w), Between(cfg, u, v), v);
  }

  lemma TurnAfterDown(cfg: Config, u: Key, w: Key, v: Key)
    requires Down(cfg, u, w) && OneTurn(cfg, w, v)
    ensures OneTurn(cfg, u, v)
  {
    if DownReach(cfg, w, v) {
      DownFirst(cfg, u, w, v);
    } else {
      var x, y :| DownReach(cfg, w, x) && Edge(cfg, x, y) && DownReach(cfg, y, v);
      DownFirst(cfg, u, w, x);
    }
  }

  lemma TurnBeforeDown(cfg: Config, u: Key, w: Key, v: Key)
    requires OneTurn(cfg, u, w) && Down(cfg, w, v)
    ensures OneTurn(cfg, u, v)
  {
    if DownReach(cfg, u, w) {
      var n: nat :| DownPath(cfg, u, w, n);
      DownLast(cfg, u, w, v, n);
    } else {
      var x, y :| DownReach(cfg, u, x) && Edge(cfg, x, y) && DownReach(cfg, y, w);
      var n: nat :| DownPath(cfg, y, w, n);
      DownLast(cfg, y, w, v, n);
    }
  }

  /** Where one turn is not enough, two ends are stuck. */
  lemma {:induction false} FindStuck(cfg: Config, u: Key, v: Key) returns (u': Key, v': Key)
    requires cfg.Valid() && EdgeReach(cfg, u, v) && !OneTurn(cfg, u, v)
    ensures Stuck(cfg, u', v')
    decreases |Between(cfg, u, v)|
  {
    hide Between;
    if w :| Down(cfg, u, w) && EdgeReach(cfg, w, v) {
      if OneTurn(cfg, w, v) { TurnAfterDown(cfg, u, w, v); }
      FewerBelow(cfg, u, w, v);
      u', v' := FindStuck(cfg, w, v);
    } else if w :| Down(cfg, w, v) && EdgeReach(cfg, u, w) {
      if OneTurn(cfg, u, w) { TurnBeforeDown(cfg, u, w, v); }
      FewerAbove(cfg, u, w, v);
      u', v' := FindStuck(cfg, u, w);
    } else {
      u', v' := u, v;
      DownSelf(cfg, u);
      DownSelf(cfg, v);
      LinkedEnds(cfg, u, v);
    }
  }

  lemma LinkedEnds(cfg: Config, u: Key, v: Key)
    requires EdgeReach(cfg, u, v) && u != v
    ensures cfg.Linked(u) && cfg.Linked(v) && u.isoutput == v.isoutput
  {
    var n: nat :| EdgePath(cfg, u, v, n);
    LinkedAlong(cfg, u, v, n);
  }

  lemma {:induction false} LinkedAlong(cfg: Config, u: Key, v: Key, n: nat)
    requires EdgePath(cfg, u, v, n) && n > 0
    ensures cfg.Linked(u) && cfg.Linked(v) && u.isoutput == v.isoutput
    decreases n
  {
    var w :| EdgePath(cfg, u, w, n - 1) && Edge(cfg, w, v);
    if n > 1 { LinkedAlong(cfg, u, w, n - 1); }
  }

  /** Seen from the other side the pair is stuck as well. */
  lemma MirrorStuck(cfg: Config, u: Key, v: Key)
    requires cfg.Valid() && Stuck(cfg, u, v)
    ensures Stuck(cfg, cfg.Partner(v), cfg.Partner(u))
  {
    var u', v' := cfg.Partner(v), cfg.Partner(u);
    PartnerTwice(cfg, u);
    PartnerTwice(cfg, v);
    MirrorReach(cfg, u, v);
    if Edge(cfg, u', v') { MirrorEdge(cfg, u', v'); }
    forall w | Edge(cfg, u', w) && EdgeReach(cfg, w, v') ensures EdgeReach(cfg, w, u') {
      PartnerTwice(cfg, w);
      MirrorEdge(cfg, u', w);
      MirrorReach(cfg, w, v');
      MirrorReach(cfg, v, cfg.Partner(w));
    }
    forall w | Edge(cfg, w, v') && EdgeReach(cfg, u', w) ensures EdgeReach(cfg, v', w) {
      PartnerTwice(cfg, w);
      MirrorEdge(cfg, w, v');
      MirrorReach(cfg, u', w);
      MirrorReach(cfg, cfg.Partner(w), u);
    }
  }

  // ----- More connections to real ports --------------------------------------

  predicate RealEnds(cfg: Config, added: seq<Conn>) {
    forall c :: c in added ==> c.from.idx !in cfg.tunnels || c.to.idx !in cfg.tunnels
  }

  /** The configuration with some connections in front. */
  function With(cfg: Config, added: seq<Conn>): Config {
    cfg.(conns := added + cfg.conns)
  }

  /** They do not change the graph of tunnel ends. */
  lemma WithEdge(cfg: Config, added: seq<Conn>, u: Key, v: Key)
    requires cfg.Valid() && RealEnds(cfg, added)
    ensures With(cfg, added).Valid() && (Edge(With(cfg, added), u, v) <==> Edge(cfg, u, v))
  {
    var cfg' := With(cfg, added);
    if cfg.Linked(u) {
      PartnerTwice(cfg, u);
      assert cfg'.Partner(u) == cfg.Partner(u);
      assert forall c :: c in cfg'.conns <==> c in added || c in cfg.conns;
    }
  }

  lemma {:induction false} WithPath(cfg: Config, added: seq<Conn>, u: Key, v: Key, n: nat)
    requires cfg.Valid() && RealEnds(cfg, added)
    ensures EdgePath(With(cfg, added), u, v, n) <==> EdgePath(cfg, u, v, n)
    decreases n
  {
    hide Edge, With, RealEnds;
    if n > 0 {
      if EdgePath(cfg, u, v, n) {
        var w :| EdgePath(cfg, u, w, n - 1) && Edge(cfg, w, v);
        WithPath(cfg, added, u, w, n - 1);
        WithEdge(cfg, added, w, v);
      }
      if EdgePath(With(cfg, added), u, v, n) {
        var w :| EdgePath(With(cfg, added), u, w, n - 1) && Edge(With(cfg, added), w, v);
        WithPath(cfg, added, u, w, n - 1);
        WithEdge(cfg, added, w, v);
      }
    }
  }

  lemma WithReach(cfg: Config, added: seq<Conn>, u: Key, v: Key)
    requires cfg.Valid() && RealEnds(cfg, added)
    ensures EdgeReach(With(cfg, added), u, v) <==> EdgeReach(cfg, u, v)
  {
    forall n: nat ensures EdgePath(With(cfg, added), u, v, n) <==> EdgePath(cfg, u, v, n) {
      WithPath(cfg, added, u, v, n);
    }
  }

  lemma WithDownEdge(cfg: Config, added: seq<Conn>, u: Key, v: Key)
    requires cfg.Valid() && RealEnds(cfg, added) && Down(cfg, u, v)
    ensures Down(With(cfg, added), u, v)
  {
    hide Edge, EdgeReach, With, RealEnds;
    WithEdge(cfg, added, u, v);
    WithReach(cfg, added, v, u);
  }

  lemma {:induction false} WithDown(cfg: Config, added: seq<Conn>, u: Key, v: Key, n: nat)
    requires cfg.Valid() && RealEnds(cfg, added) && DownPath(cfg, u, v, n)
    ensures DownPath(With(cfg, added), u, v, n)
    decreases n
  {
    hide Down, With, RealEnds;
    if n > 0 {
      var w :| Down(cfg, u, w) && DownPath(cfg, w, v, n - 1);
      WithDownEdge(cfg, added, u, w);
      WithDown(cfg, added, w, v, n - 1);
    }
  }

  lemma WithDownReach(cfg: Config, added: seq<Conn>, u: Key, v: Key)
    requires cfg.Valid() && RealEnds(cfg, added) && DownReach(cfg, u, v)
    ensures DownReach(With(cfg, added), u, v)
  {
    var n: nat :| DownPath(cfg, u, v, n);
    WithDown(cfg, added, u, v, n);
  }

  lemma WithFlattenable(cfg: Config, added: seq<Conn>)
    requires cfg.Valid() && RealEnds(cfg, added) && Flattenable(cfg)
    ensures Flattenable(With(cfg, added))
  {
    var cfg' := With(cfg, added);
    forall u, v | EdgeReach(cfg', u, v) ensures OneTurn(cfg', u, v) {
      WithReach(cfg, added, u, v);
      if DownReach(cfg, u, v) {
        WithDownReach(cfg, added, u, v);
      } else {
        var x, y :| DownReach(cfg, u, x) && Edge(cfg, x, y) && DownReach(cfg, y, v);
        WithDownReach(cfg, added, u, x);
        WithEdge(cfg, added, x, y);
        WithDownReach(cfg, added, y, v);
      }
    }
  }

  lemma WithStuck(cfg: Config, added: seq<Conn>, u: Key, v: Key)
    requires cfg.Valid() && RealEnds(cfg, added) && Stuck(cfg, u, v)
    ensures With(cfg, added).Valid() && Stuck(With(cfg, added), u, v)
  {
    WithEdge(cfg, added, u, v);
    WithReach(cfg, added, u, v);
    forall w ensures Edge(With(cfg, added), u, w) <==> Edge(cfg, u, w) { WithEdge(cfg, added, u, w); }
    forall w ensures Edge(With(cfg, added), w, v) <==> Edge(cfg, w, v) { WithEdge(cfg, added, w, v); }
    forall w, x ensures EdgeReach(With(cfg, added), w, x) <==> EdgeReach(cfg, w, x) { WithReach(cfg, added, w, x); }
    assert With(cfg, added).Linked(u) && With(cfg, added).Linked(v);
    hide Edge, EdgeReach, With;
  }

  // ----- The detour ----------------------------------------------------------

  /** Two connections that have u and v expanded first, one backward and one
      forward, and two that lead from f into u's tunnel and out of v's to t. */
  function Detour(cfg: Config, u: Key, v: Key, f: Port, t: Port): seq<Conn>
    requires cfg.Linked(u) && cfg.Linked(v)
  {
    [Conn(cfg.Partner(u).port, f), Conn(t, v.port), Conn(f, u.port), Conn(cfg.Partner(v).port, t)]
  }

  lemma StuckTurns(cfg: Config, u: Key, v: Key)
    requires cfg.Valid() && Stuck(cfg, u, v)
    ensures Turning(cfg, u, v) && Turning(cfg, cfg.Partner(v), cfg.Partner(u))
  {
    MirrorStuck(cfg, u, v);
  }

  /** Both entries are made first. */
  lemma DetourBlinds(cfg: Config, alive: set<int>, u: Key, v: Key, f: Port, t: Port)
    requires Apart(cfg, u, v, f, t) && Stuck(cfg, u, v) && alive !! cfg.tunnels && f != t
    requires |cfg.conns| >= 2 && cfg.conns[0] == Conn(cfg.Partner(u).port, f) && cfg.conns[1] == Conn(t, v.port)
    ensures var (memo, out) := Flatten(cfg, alive, 2); Lost(cfg, memo, u, v, f, t) && Conn(f, t) !in out
  {
    var c0, c1 := cfg.conns[0], cfg.conns[1];
    var pu, pv := cfg.Partner(u), cfg.Partner(v);
    PartnerTwice(cfg, u);
    PartnerTwice(cfg, v);
    StuckTurns(cfg, u, v);
    SidesInUniverse(cfg, c0);
    SidesInUniverse(cfg, c1);
    EntryBlind(cfg, map[], pv, pu, f);
    var (m1, froms) := Expand(cfg, map[], pu);
    FreshSide(cfg, m1, u, v);
    EntryBlind(cfg, m1, u, v, t);
    ExpandBlind(cfg, m1, pv, pu, f, v);
    var (m2, tos) := Expand(cfg, m1, v);
    hide Blind, Stuck, Turning, Closed, Zone, OnlyBeyond, Expand;
    assert Flatten(cfg, alive, 0) == (map[], []);
    assert Flatten(cfg, alive, 1) == (m1, [] + Pairs(froms, [f], alive));
    assert Flatten(cfg, alive, 2) == (m2, [] + Pairs(froms, [f], alive) + Pairs([t], tos, alive));
  }

  /** After a backward expansion alone nothing forward is marked. */
  lemma FreshSide(cfg: Config, memo: Memo, u: Key, v: Key)
    requires OneSide(map[], memo, true) && !u.isoutput && !v.isoutput
    ensures forall w :: EdgeReach(cfg, v, w) ==> w !in memo
    ensures forall w :: Zone(cfg, u, v, w) ==> w !in memo
  {
    forall w | EdgeReach(cfg, v, w) ensures w !in memo {
      var n: nat :| EdgePath(cfg, v, w, n);
      ReachSide(cfg, v, w, n);
    }
    forall w | Zone(cfg, u, v, w) ensures w !in memo { ZoneSide(cfg, u, v, w); }
  }

  lemma DetourApart(cfg: Config, u: Key, v: Key, f: Port, t: Port)
    requires cfg.Valid() && Stuck(cfg, u, v) && !u.isoutput && f != t
    requires f.idx !in cfg.tunnels && t.idx !in cfg.tunnels && forall c :: c in cfg.conns ==> c.from != f && c.to != t
    ensures var cfg' := With(cfg, Detour(cfg, u, v, f, t));
            RealEnds(cfg, Detour(cfg, u, v, f, t)) && Apart(cfg', u, v, f, t)
  {
    var added := Detour(cfg, u, v, f, t);
    var cfg' := With(cfg, added);
    WithEdge(cfg, added, u, v);
    PartnerTwice(cfg', u);
    PartnerTwice(cfg', v);
    assert u.port.idx in cfg.tunnels && v.port.idx in cfg.tunnels;
    forall w | cfg'.Linked(w) && !w.isoutput && w != v ensures t !in cfg'.Beyond(w) {
      PartnerTwice(cfg', w);
    }
    forall w | cfg'.Linked(w) && w.isoutput && w != cfg'.Partner(u) ensures f !in cfg'.Beyond(w) {
      PartnerTwice(cfg', w);
    }
  }

  lemma {:induction false} PathReaches(cfg: Config, v: Key, u: Key, b: Port, n: nat)
    requires cfg.Valid() && EdgePath(cfg, v, u, n) && Reaches(cfg, u.isoutput, u.port, b)
    ensures v.isoutput == u.isoutput && Reaches(cfg, v.isoutput, v.port, b)
    decreases n
  {
    if n > 0 {
      var w :| EdgePath(cfg, v, w, n - 1) && Edge(cfg, w, u);
      BeyondReaches(cfg, w, u.port, b);
      PathReaches(cfg, v, w, b, n - 1);
    }
  }

  lemma JoinedThrough(cfg: Config, u: Key, v: Key, f: Port, t: Port)
    requires cfg.Valid() && EdgeReach(cfg, u, v) && !v.isoutput && cfg.Linked(u) && cfg.Linked(v)
    requires Conn(f, u.port) in cfg.conns && Conn(cfg.Partner(v).port, t) in cfg.conns
    requires f.idx !in cfg.tunnels && t.idx !in cfg.tunnels
    ensures Joined(cfg, f, t)
  {
    assert Conn(cfg.Partner(v).port, t).Side(true) == cfg.Partner(v).port;
    assert t in cfg.Beyond(v);
    assert LeadsTo(cfg, false, t, t, 0) && LeadsTo(cfg, true, f, f, 0);
    BeyondReaches(cfg, v, t, t);
    var n: nat :| EdgePath(cfg, u, v, n);
    PathReaches(cfg, u, v, t, n);
    JoinedAround(cfg, Conn(f, u.port), f, t);
  }

  /** With the detour, the router of a stuck configuration misses a joined pair. */
  lemma DetourLoses(cfg: Config, alive: set<int>, u: Key, v: Key, f: Port, t: Port)
    requires cfg.Valid() && Stuck(cfg, u, v) && !u.isoutput && f != t && alive !! cfg.tunnels
    requires f.idx !in cfg.tunnels && t.idx !in cfg.tunnels && forall c :: c in cfg.conns ==> c.from != f && c.to != t
    ensures var cfg' := With(cfg, Detour(cfg, u, v, f, t));
            && RealEnds(cfg, Detour(cfg, u, v, f, t))
            && Joined(cfg', f, t) && !InRouter(cfg', alive, Conn(f, t))
  {
    var added := Detour(cfg, u, v, f, t);
    var cfg' := With(cfg, added);
    DetourApart(cfg, u, v, f, t);
    WithStuck(cfg, added, u, v);
    assert cfg'.Partner(u) == cfg.Partner(u) && cfg'.Partner(v) == cfg.Partner(v);
    assert added[0] == cfg'.conns[0] && added[1] == cfg'.conns[1] && added[2] in cfg'.conns && added[3] in cfg'.conns;
    hide With, RealEnds, Apart, Lost;
    DetourBlinds(cfg', alive, u, v, f, t);
    JoinedThrough(cfg', u, v, f, t);
    RouterMisses(cfg', alive, 2, u, v, f, t);
  }

  // ----- The exact condition -------------------------------------------------

  ghost predicate Exact(cfg: Config, alive: set<int>) {
    forall f: Port, t: Port ::
      InRouter(cfg, alive, Conn(f, t)) <==> f.idx in alive && t.idx in alive && Joined(cfg, f, t)
  }

  /** Exact, and staying so when connections to real ports are put in front. */
  ghost predicate AlwaysExact(cfg: Config) {
    forall added: seq<Conn>, alive: set<int> ::
      RealEnds(cfg, added) && alive !! cfg.tunnels ==> Exact(With(cfg, added), alive)
  }

  lemma {:induction false} Bound(s: set<int>) returns (b: int)
    ensures forall x :: x in s ==> x < b
    decreases |s|
  {
    b := 0;
    if exists y :: y in s {
      var y :| y in s;
      var c := Bound(s - {y});
      b := if c <= y then y + 1 else c;
      assert forall x :: x in s ==> x == y || x in s - {y};
    }
  }

  lemma FreshElement(cfg: Config) returns (e: int)
    ensures e !in cfg.tunnels && forall c :: c in cfg.conns ==> c.from.idx != e && c.to.idx != e
  {
    var s := cfg.tunnels + (set c | c in cfg.conns :: c.from.idx) + (set c | c in cfg.conns :: c.to.idx);
    e := Bound(s);
    forall c | c in cfg.conns ensures c.from.idx in s && c.to.idx in s {}
  }

  /** Where one turn is not enough, some connections to a fresh element make the
      router miss a pair that is joined. */
  lemma MoreTurnsLose(cfg: Config, alive: set<int>) returns (added: seq<Conn>, f: Port, t: Port)
    requires cfg.Valid() && !Flattenable(cfg) && alive !! cfg.tunnels
    ensures RealEnds(cfg, added) && |added| == 4 && f.idx !in cfg.tunnels && t.idx !in cfg.tunnels
    ensures Joined(With(cfg, added), f, t) && !InRouter(With(cfg, added), alive + {f.idx, t.idx}, Conn(f, t))
  {
    var u0, v0 :| EdgeReach(cfg, u0, v0) && !OneTurn(cfg, u0, v0);
    var u, v := FindStuck(cfg, u0, v0);
    if u.isoutput {
      MirrorStuck(cfg, u, v);
      u, v := cfg.Partner(v), cfg.Partner(u);
    }
    var e := FreshElement(cfg);
    f, t := Port(e, 0), Port(e, 1);
    assert cfg.Linked(u) && cfg.Linked(v);
    hide Stuck, Flattenable, RealEnds, With, Joined, InRouter, EdgeReach, OneTurn;
    assert alive + {f.idx, t.idx} == alive + {e};
    DetourLoses(cfg, alive + {e}, u, v, f, t);
    added := Detour(cfg, u, v, f, t);
  }

  /** Flattening is exact, whatever real ports are connected as well, if and only
      if every reachable end is reached with at most one edge inside a cycle. */
  lemma ExactIff(cfg: Config)
    requires cfg.Valid()
    ensures AlwaysExact(cfg) <==> Flattenable(cfg)
  {
    if Flattenable(cfg) {
      forall added: seq<Conn>, alive: set<int> | RealEnds(cfg, added) && alive !! cfg.tunnels
        ensures Exact(With(cfg, added), alive)
      {
        FlattenableExact(cfg, added, alive);
      }
    } else {
      var added, f, t := MoreTurnsLose(cfg, {});
      assert !Exact(With(cfg, added), {} + {f.idx, t.idx});
    }
  }

  lemma FlattenableExact(cfg: Config, added: seq<Conn>, alive: set<int>)
    requires cfg.Valid() && Flattenable(cfg) && RealEnds(cfg, added) && alive !! cfg.tunnels
    ensures Exact(With(cfg, added), alive)
  {
    var cfg' := With(cfg, added);
    WithFlattenable(cfg, added);
    var k := Key(Port(0, 0), false);
    WithEdge(cfg, added, k, k);
    forall f: Port, t: Port
      ensures InRouter(cfg', alive, Conn(f, t)) <==> f.idx in alive && t.idx in alive && Joined(cfg', f, t)
    {
      RouterExact(cfg', alive, f, t);
    }
  }

  // ----- An example ----------------------------------------------------------

  /** The elements of the example: a compound c, and four real ones. */
  const C := 1
  const IN := 2
  const OUT := 3
  const X := Port(10, 0)
  const Z := Port(11, 0)
  const F := Port(12, 0)
  const T := Port(13, 0)

  /** x -> [1]c, c[1] -> z, f -> [0]c, c[0] -> [0]c, c[0] -> [1]c, and inside c
      [0] -> [0], [1] -> [0], [0] -> [1], and [1] -> t. */
  const EXAMPLE := Config(
    {C, IN, OUT}, map[C := IN, OUT := C], map[IN := C, C := OUT],
    [Conn(X, Port(C, 1)), Conn(Port(C, 1), Z), Conn(F, Port(C, 0)),
     Conn(Port(C, 0), Port(C, 0)), Conn(Port(C, 0), Port(C, 1)),
     Conn(Port(IN, 0), Port(OUT, 0)), Conn(Port(IN, 1), Port(OUT, 0)),
     Conn(Port(IN, 0), Port(OUT, 1)), Conn(Port(IN, 1), T)])

  /** The tunnels into c at ports 0 and 1, and out of c. */
  const INTO0 := Key(Port(C, 0), false)
  const INTO1 := Key(Port(C, 1), false)
  const OUTOF0 := Key(Port(OUT, 0), false)
  const OUTOF1 := Key(Port(OUT, 1), false)

  /** What lies beyond an end, by connections. */
  lemma BeyondIs(cfg: Config, k: Key, q: Port)
    requires cfg.Linked(k)
    ensures var far := cfg.Partner(k).port;
            q in cfg.Beyond(k) <==> (if k.isoutput then Conn(q, far) else Conn(far, q)) in cfg.conns
  {
    var far := cfg.Partner(k);
    var c := if k.isoutput then Conn(q, far.port) else Conn(far.port, q);
    assert c.Side(far.isoutput) == far.port && c.Side(!far.isoutput) == q;
  }

  lemma ExampleValid()
    ensures EXAMPLE.Valid()
  {
  }

  lemma ExampleConns(c: Conn)
    ensures c in EXAMPLE.conns <==>
            || c == Conn(X, Port(C, 1)) || c == Conn(Port(C, 1), Z) || c == Conn(F, Port(C, 0))
            || c == Conn(Port(C, 0), Port(C, 0)) || c == Conn(Port(C, 0), Port(C, 1))
            || c == Conn(Port(IN, 0), Port(OUT, 0)) || c == Conn(Port(IN, 1), Port(OUT, 0))
            || c == Conn(Port(IN, 0), Port(OUT, 1)) || c == Conn(Port(IN, 1), T)
  {
    hide C, IN, OUT, X, Z, F, T;
    assert EXAMPLE.conns ==
      [Conn(X, Port(C, 1)), Conn(Port(C, 1), Z), Conn(F, Port(C, 0)),
       Conn(Port(C, 0), Port(C, 0)), Conn(Port(C, 0), Port(C, 1))]
      + [Conn(Port(IN, 0), Port(OUT, 0)), Conn(Port(IN, 1), Port(OUT, 0)),
         Conn(Port(IN, 0), Port(OUT, 1)), Conn(Port(IN, 1), T)];
  }

  lemma ExampleEdge(u: Key, v: Key)
    requires !u.isoutput
    ensures Edge(EXAMPLE, u, v) <==>
            || (u == INTO0 && (v == OUTOF0 || v == OUTOF1)) || (u == INTO1 && v == OUTOF0)
            || (u == OUTOF0 && (v == INTO0 || v == INTO1))
  {
    if EXAMPLE.Linked(u) {
      BeyondIs(EXAMPLE, u, v.port);
      ExampleConns(Conn(EXAMPLE.Partner(u).port, v.port));
    }
  }

  lemma ExampleReach()
    ensures EdgeReach(EXAMPLE, INTO0, OUTOF0) && EdgeReach(EXAMPLE, OUTOF0, INTO0) && EdgeReach(EXAMPLE, INTO1, OUTOF0)
    ensures EdgeReach(EXAMPLE, INTO0, INTO1) && INTO0 != INTO1 && !Edge(EXAMPLE, INTO0, INTO1)
    ensures EXAMPLE.Linked(INTO0) && EXAMPLE.Linked(INTO1) && INTO0.isoutput == INTO1.isoutput
  {
    ExampleEdge(INTO0, OUTOF0);
    ExampleEdge(OUTOF0, INTO0);
    ExampleEdge(OUTOF0, INTO1);
    ExampleEdge(INTO1, OUTOF0);
    ExampleEdge(INTO0, INTO1);
    hide Edge, EdgeReach;
    EdgeIsReach(EXAMPLE, INTO0, OUTOF0);
    ReachEdge(EXAMPLE, INTO0, OUTOF0, INTO1);
    EdgeIsReach(EXAMPLE, OUTOF0, INTO0);
    EdgeIsReach(EXAMPLE, INTO1, OUTOF0);
  }

  lemma ExampleFirst(w: Key)
    requires Edge(EXAMPLE, INTO0, w) && EdgeReach(EXAMPLE, w, INTO1)
    ensures w == OUTOF0
  {
    ExampleEdge(INTO0, w);
    hide Edge, EdgeReach, EXAMPLE;
    ExampleEnd(INTO1);
  }

  lemma ExampleLast(w: Key)
    requires Edge(EXAMPLE, w, INTO1)
    ensures w == OUTOF0
  {
    EdgeSide(EXAMPLE, w, INTO1);
    ExampleEdge(w, INTO1);
  }

  lemma ExampleStuck()
    ensures Stuck(EXAMPLE, INTO0, INTO1)
  {
    hide Edge, EdgeReach, EXAMPLE, INTO0, INTO1, OUTOF0, OUTOF1;
    ExampleReach();
    forall w | Edge(EXAMPLE, INTO0, w) && EdgeReach(EXAMPLE, w, INTO1) ensures EdgeReach(EXAMPLE, w, INTO0) {
      ExampleFirst(w);
    }
    forall w | Edge(EXAMPLE, w, INTO1) && EdgeReach(EXAMPLE, INTO0, w) ensures EdgeReach(EXAMPLE, INTO1, w) {
      ExampleLast(w);
    }
  }

  lemma EdgeSide(cfg: Config, u: Key, v: Key)
    requires Edge(cfg, u, v)
    ensures u.isoutput == v.isoutput
  {
  }

  lemma {:induction false} NoWayOn(cfg: Config, k: Key, v: Key, n: nat)
    requires EdgePath(cfg, k, v, n) && forall w :: !Edge(cfg, k, w)
    ensures v == k
    decreases n
  {
    if n > 0 {
      var w :| EdgePath(cfg, k, w, n - 1) && Edge(cfg, w, v);
      NoWayOn(cfg, k, w, n - 1);
    }
  }

  /** From c[1] there is no way on. */
  lemma ExampleEnd(v: Key)
    ensures v != OUTOF1 ==> !EdgeReach(EXAMPLE, OUTOF1, v)
  {
    forall w ensures !Edge(EXAMPLE, OUTOF1, w) { ExampleEdge(OUTOF1, w); }
    hide Edge;
    if EdgeReach(EXAMPLE, OUTOF1, v) {
      var n: nat :| EdgePath(EXAMPLE, OUTOF1, v, n);
      NoWayOn(EXAMPLE, OUTOF1, v, n);
    }
  }

  lemma ExampleApart()
    ensures Apart(EXAMPLE, INTO0, INTO1, F, T)
  {
    ExampleValid();
    ExampleReach();
    ExampleConns(Conn(F, T));
    hide Edge, EdgeReach;
    forall w | EXAMPLE.Linked(w) && !w.isoutput && w != INTO1 ensures T !in EXAMPLE.Beyond(w) {
      BeyondIs(EXAMPLE, w, T);
      ExampleConns(Conn(EXAMPLE.Partner(w).port, T));
    }
    forall w | EXAMPLE.Linked(w) && w.isoutput && w != EXAMPLE.Partner(INTO0) ensures F !in EXAMPLE.Beyond(w) {
      BeyondIs(EXAMPLE, w, F);
      ExampleConns(Conn(F, EXAMPLE.Partner(w).port));
    }
  }

  /** Expanding one port several times is expanding it once. */
  lemma {:induction false} SamePorts(cfg: Config, memo: Memo, ports: seq<Port>, d: bool, q: Port)
    requires Key(q, d) in cfg.Universe() && q.idx in cfg.tunnels && cfg.Linked(Key(q, d))
    requires ports != [] && forall p :: p in ports ==> p == q
    ensures ExpandList(cfg, memo, ports, d).0 == Expand(cfg, memo, Key(q, d)).0
    decreases |ports|
  {
    var front, last := ports[..|ports| - 1], ports[|ports| - 1];
    assert last in ports && forall p :: p in front ==> p in ports;
    if front == [] {
      assert ExpandList(cfg, memo, front, d).0 == memo;
    } else {
      SamePorts(cfg, memo, front, d, q);
      var m1 := ExpandList(cfg, memo, front, d).0;
      assert ExpandConnection(cfg, m1, last, d).0 == m1;
    }
  }

  /** The way into k leads through another end that k does not lead back to. */
  lemma EntryThrough(cfg: Config, memo: Memo, s: Key, k: Key, r: Port, x: Key)
    requires cfg.Linked(k) && k in cfg.Universe() && s.isoutput == k.isoutput == x.isoutput && OnlyBeyond(cfg, k, r)
    requires k.port.idx in cfg.tunnels && cfg.Linked(x) && x in cfg.Universe() && x !in memo
    requires k.port in cfg.Beyond(x) && forall q :: q in cfg.Beyond(x) ==> q == k.port
    requires !EdgeReach(cfg, k, x) && !EdgeReach(cfg, s, x)
    requires Turning(cfg, s, k) && Closed(cfg, memo) && OneSide(map[], memo, !k.isoutput)
    ensures Blind(cfg, Expand(cfg, memo, x).0, s, k, r)
  {
    var m0 := memo[x := Busy];
    EntryReady(cfg, memo, s, k, x);
    hide Blind, Turning, Closed, OneSide, OnlyBeyond, Edge, EdgeReach, SameBusy;
    EntryBlind(cfg, m0, s, k, r);
    SamePorts(cfg, m0, cfg.Beyond(x), x.isoutput, k.port);
    var (m, ports) := ExpandList(cfg, m0, cfg.Beyond(x), x.isoutput);
    BlindFinished(cfg, m, s, k, r, x, ports);
    assert Expand(cfg, memo, x).0 == m[x := Done(ports)];
  }

  lemma EntryReady(cfg: Config, memo: Memo, s: Key, k: Key, x: Key)
    requires s.isoutput == k.isoutput && x !in memo && Closed(cfg, memo) && OneSide(map[], memo, !k.isoutput)
    requires !EdgeReach(cfg, k, x)
    ensures var m0 := memo[x := Busy];
            && Closed(cfg, m0) && (forall w :: EdgeReach(cfg, k, w) ==> w !in m0)
            && (forall w :: Zone(cfg, s, k, w) && w in m0 ==> !m0[w].Done?)
    ensures x != k
  {
    var m0 := memo[x := Busy];
    ReachSelf(cfg, k);
    forall w | EdgeReach(cfg, k, w) ensures w !in m0 {
      var n: nat :| EdgePath(cfg, k, w, n);
      ReachSide(cfg, k, w, n);
    }
    forall w | Zone(cfg, s, k, w) && w in m0 ensures !m0[w].Done? {
      ZoneSide(cfg, s, k, w);
    }
  }

  lemma BlindFinished(cfg: Config, memo: Memo, s: Key, k: Key, r: Port, x: Key, ports: seq<Port>)
    requires Blind(cfg, memo, s, k, r) && x != k && !EdgeReach(cfg, s, x)
    ensures Blind(cfg, memo[x := Done(ports)], s, k, r)
  {
    hide Edge, EdgeReach;
  }

  /** The back of c[1]'s tunnel. */
  const BACK := Key(Port(C, 1), true)

  lemma ExampleBack()
    ensures EXAMPLE.Partner(OUTOF1) == BACK && EXAMPLE.Linked(BACK)
    ensures forall q :: q in EXAMPLE.Beyond(BACK) <==> q == EXAMPLE.Partner(INTO0).port
    ensures !EdgeReach(EXAMPLE, EXAMPLE.Partner(INTO0), BACK) && !EdgeReach(EXAMPLE, EXAMPLE.Partner(INTO1), BACK)
  {
    forall q ensures q in EXAMPLE.Beyond(BACK) <==> q == EXAMPLE.Partner(INTO0).port {
      BeyondIs(EXAMPLE, BACK, q);
      ExampleConns(Conn(q, Port(OUT, 1)));
    }
    ExampleValid();
    MirrorReach(EXAMPLE, OUTOF1, INTO0);
    MirrorReach(EXAMPLE, OUTOF1, INTO1);
    ExampleEnd(INTO0);
    ExampleEnd(INTO1);
  }

  lemma ExampleSides()
    ensures INTO1 in EXAMPLE.Universe() && BACK in EXAMPLE.Universe() && EXAMPLE.Partner(INTO0) in EXAMPLE.Universe()
    ensures EXAMPLE.conns[0] == Conn(X, Port(C, 1)) && EXAMPLE.conns[1] == Conn(Port(C, 1), Z)
  {
    SidesInUniverse(EXAMPLE, EXAMPLE.conns[0]);
    SidesInUniverse(EXAMPLE, EXAMPLE.conns[1]);
    SidesInUniverse(EXAMPLE, EXAMPLE.conns[5]);
  }

  /** A connection from a real port into a tunnel, and one out of a tunnel to a
      real port. */
  lemma TwoConns(cfg: Config, alive: set<int>, x: Port, k: Key, b: Key, z: Port)
    requires alive !! cfg.tunnels && x.idx !in cfg.tunnels && z.idx !in cfg.tunnels
    requires cfg.Linked(k) && k.port.idx in cfg.tunnels && k in cfg.Universe() && !k.isoutput
    requires cfg.Linked(b) && b.port.idx in cfg.tunnels && b in cfg.Universe() && b.isoutput
    requires |cfg.conns| >= 2 && cfg.conns[0] == Conn(x, k.port) && cfg.conns[1] == Conn(b.port, z)
    ensures var (m1, tos) := Expand(cfg, map[], k);
            var (m2, froms) := Expand(cfg, m1, b);
            Flatten(cfg, alive, 2) == (m2, [] + Pairs([x], tos, alive) + Pairs(froms, [z], alive))
  {
    var (m1, tos) := Expand(cfg, map[], k);
    hide Expand;
    assert Flatten(cfg, alive, 0) == (map[], []);
    assert Flatten(cfg, alive, 1) == (m1, [] + Pairs([x], tos, alive));
  }

  /** Entering v directly, and u through b. */
  lemma EntriesBlind(cfg: Config, alive: set<int>, u: Key, v: Key, f: Port, t: Port, x: Port, b: Key, z: Port)
    requires Apart(cfg, u, v, f, t) && Stuck(cfg, u, v) && alive !! cfg.tunnels && x != f && z != t
    requires x.idx !in cfg.tunnels && z.idx !in cfg.tunnels && b.isoutput && b in cfg.Universe() && cfg.Linked(b)
    requires v in cfg.Universe() && cfg.Linked(u) && cfg.Partner(u) in cfg.Universe() && cfg.Linked(v)
    requires |cfg.conns| >= 2 && cfg.conns[0] == Conn(x, v.port) && cfg.conns[1] == Conn(b.port, z)
    requires forall q :: q in cfg.Beyond(b) <==> q == cfg.Partner(u).port
    requires !EdgeReach(cfg, cfg.Partner(u), b) && !EdgeReach(cfg, cfg.Partner(v), b)
    ensures var (memo, out) := Flatten(cfg, alive, 2); Lost(cfg, memo, u, v, f, t) && Conn(f, t) !in out
  {
    hide Blind, Stuck, Turning, Closed, Zone, EdgeReach, Edge, OnlyBeyond, Expand, Flatten, Opposite;
    var pu, pv := cfg.Partner(u), cfg.Partner(v);
    PartnerTwice(cfg, u);
    PartnerTwice(cfg, v);
    PartnerTwice(cfg, b);
    StuckTurns(cfg, u, v);
    EmptyMemo(cfg);
    EntryBlind(cfg, map[], u, v, t);
    var (m1, tos) := Expand(cfg, map[], v);
    EntryThrough(cfg, m1, pv, pu, f, b);
    ExpandBlind(cfg, m1, u, v, t, b);
    TwoConns(cfg, alive, x, v, b, z);
  }

  lemma EmptyMemo(cfg: Config)
    ensures Closed(cfg, map[])
  {
  }

  lemma ExampleFacts()
    ensures EXAMPLE.Linked(INTO0) && EXAMPLE.Linked(INTO1) && !INTO1.isoutput && BACK.isoutput && X != F && Z != T
    ensures X.idx !in EXAMPLE.tunnels && Z.idx !in EXAMPLE.tunnels && F.idx !in EXAMPLE.tunnels
    ensures T.idx !in EXAMPLE.tunnels
    ensures |EXAMPLE.conns| >= 2 && EXAMPLE.conns[0] == Conn(X, INTO1.port) && EXAMPLE.conns[1] == Conn(BACK.port, Z)
    ensures Conn(F, INTO0.port) in EXAMPLE.conns && Conn(EXAMPLE.Partner(INTO1).port, T) in EXAMPLE.conns
  {
    ExampleConns(Conn(F, INTO0.port));
    ExampleConns(Conn(EXAMPLE.Partner(INTO1).port, T));
  }

  lemma StuckReaches(cfg: Config, u: Key, v: Key)
    requires Stuck(cfg, u, v)
    ensures EdgeReach(cfg, u, v)
  {
  }

  /** f and t are joined, f -> [0]c[0] -> [1]c -> t inside, and the router has no
      such connection. */
  lemma ExampleLoses(alive: set<int>)
    requires alive !! EXAMPLE.tunnels
    ensures Joined(EXAMPLE, F, T) && !InRouter(EXAMPLE, alive, Conn(F, T))
  {
    hide *;
    ExampleValid();
    ExampleApart();
    ExampleStuck();
    ExampleFacts();
    ExampleBack();
    ExampleSides();
    StuckReaches(EXAMPLE, INTO0, INTO1);
    JoinedThrough(EXAMPLE, INTO0, INTO1, F, T);
    EntriesBlind(EXAMPLE, alive, INTO0, INTO1, F, T, X, BACK, Z);
    RouterMisses(EXAMPLE, alive, 2, INTO0, INTO1, F, T);
  }
}
