/** Connection tunnels of lib/lexer.cc as a graph, and their flattening.

    A tunnel leads from the input side of one pseudo-element to the output side
    of another.  Flattening replaces a port on a pseudo-element by the real ports
    behind it, with a memo per tunnel end (TunnelEnd::expand).
 */
module TunnelGraph {
  import opened Ports

  // ----- Data ---------------------------------------------------------------

  /** Name of a tunnel end. */
  datatype Key = Key(port: Port, isoutput: bool)

  /** `tunnels` are the elements of TUNNEL_TYPE.  `inLink` takes an element used
      as a connection's target to the element its tunnel comes out of, `outLink`
      goes back. */
  datatype Config = Config(tunnels: set<int>, inLink: map<int, int>, outLink: map<int, int>, conns: seq<Conn>) {
    function Link(isoutput: bool): map<int, int> { if isoutput then outLink else inLink }

    ghost predicate Valid() {
      && inLink.Keys <= tunnels && outLink.Keys <= tunnels
      && (forall a :: a in inLink ==> inLink[a] in outLink && outLink[inLink[a]] == a)
      && (forall b :: b in outLink ==> outLink[b] in inLink && inLink[outLink[b]] == b)
    }

    /** Some tunnel has an end at this port and side. */
    predicate Linked(k: Key) { k.port.idx in Link(k.isoutput) }

    /** The far end of the tunnel. */
    function Partner(k: Key): Key
      requires Linked(k)
    {
      Key(Port(Link(k.isoutput)[k.port.idx], k.port.port), !k.isoutput)
    }

    /** What lies just beyond the tunnel: for the end where a tunnel comes out,
        the ports connected into its other end, and the reverse. */
    function Beyond(k: Key): seq<Port>
      requires Linked(k)
    {
      Opposite(conns, Partner(k))
    }

    ghost function Universe(): set<Key> {
      (set c | c in conns :: Key(c.from, true)) + (set c | c in conns :: Key(c.to, false))
    }
  }

  /** Far sides of the connections that touch `k`, in order. */
  function Opposite(conns: seq<Conn>, k: Key): (r: seq<Port>)
    ensures forall q :: q in r <==> exists c :: c in conns && c.Side(k.isoutput) == k.port && c.Side(!k.isoutput) == q
  {
    if conns == [] then []
    else
      var last := conns[|conns| - 1];
      assert conns == conns[..|conns| - 1] + [last];
      Opposite(conns[..|conns| - 1], k)
      + if last.Side(k.isoutput) == k.port then [last.Side(!k.isoutput)] else []
  }

  // ----- Specification: chains of connections -------------------------------

  /** Each connection but the last ends in a tunnel that the next comes out of. */
  ghost predicate Chain(cfg: Config, cs: seq<Conn>) {
    && |cs| > 0
    && (forall i :: 0 <= i < |cs| ==> cs[i] in cfg.conns)
    && (forall i :: 0 <= i < |cs| - 1 ==> Hop(cfg, cs[i], cs[i + 1]))
  }

  ghost predicate Hop(cfg: Config, c: Conn, d: Conn) {
    c.to.idx in cfg.inLink && d.from == Port(cfg.inLink[c.to.idx], c.to.port)
  }

  /** Real ports joined directly or through tunnels. */
  ghost predicate Joined(cfg: Config, f: Port, t: Port) {
    && f.idx !in cfg.tunnels && t.idx !in cfg.tunnels
    && exists cs: seq<Conn> :: Chain(cfg, cs) && cs[0].from == f && cs[|cs| - 1].to == t
  }

  /** From port q on side d, n tunnels further, lies the real port r. */
  ghost predicate LeadsTo(cfg: Config, d: bool, q: Port, r: Port, n: nat)
    decreases n
  {
    if n == 0 then q == r && q.idx !in cfg.tunnels
    else
      && q.idx in cfg.tunnels && cfg.Linked(Key(q, d))
      && exists p :: p in cfg.Beyond(Key(q, d)) && LeadsTo(cfg, d, p, r, n - 1)
  }

  ghost predicate Reaches(cfg: Config, d: bool, q: Port, r: Port) {
    exists n: nat :: LeadsTo(cfg, d, q, r, n)
  }

  // ----- Flattening ---------------------------------------------------------

  /** A tunnel end being expanded, or the ports found behind it.  Ends that were
      not visited have no mark. */
  datatype Mark = Busy | Done(ports: seq<Port>)

  type Memo = map<Key, Mark>

  ghost predicate IsBusy(memo: Memo, k: Key) { k in memo && memo[k].Busy? }

  ghost predicate SameBusy(memo: Memo, m: Memo) {
    forall k :: IsBusy(memo, k) <==> IsBusy(m, k)
  }

  /** Only ends of one side are new. */
  ghost predicate OneSide(memo: Memo, m: Memo, d: bool) {
    forall k :: k in m && k !in memo ==> k.isoutput == d
  }

  /** TunnelEnd::expand. */
  function Expand(cfg: Config, memo: Memo, k: Key): (r: (Memo, seq<Port>))
    requires cfg.Linked(k) && k in cfg.Universe()
    ensures memo.Keys <= r.0.Keys && k in r.0 && SameBusy(memo, r.0) && OneSide(memo, r.0, k.isoutput)
    decreases cfg.Universe() - memo.Keys, 0
  {
    if k in memo then
      match memo[k]
      case Busy => (memo, [])
      case Done(ports) => (memo, ports)
    else
      assert k in cfg.Universe() - memo.Keys && k !in cfg.Universe() - memo[k := Busy].Keys;
      var (m, ports) := ExpandList(cfg, memo[k := Busy], cfg.Beyond(k), k.isoutput);
      assert forall g :: IsBusy(m, g) <==> g == k || IsBusy(memo, g) by {
        assert forall g :: IsBusy(memo[k := Busy], g) <==> IsBusy(m, g);
      }
      (m[k := Done(ports)], ports)
  }

  /** The loop over a tunnel end's first-cut ports. */
  function ExpandList(cfg: Config, memo: Memo, ports: seq<Port>, d: bool): (r: (Memo, seq<Port>))
    requires forall q :: q in ports ==> Key(q, d) in cfg.Universe()
    ensures memo.Keys <= r.0.Keys && SameBusy(memo, r.0) && OneSide(memo, r.0, d)
    ensures forall q :: q in ports && q.idx in cfg.tunnels && cfg.Linked(Key(q, d)) ==> Key(q, d) in r.0
    decreases cfg.Universe() - memo.Keys, 2 + |ports|
  {
    if ports == [] then (memo, [])
    else
      var front, last := ports[..|ports| - 1], ports[|ports| - 1];
      var (m1, r1) := ExpandList(cfg, memo, front, d);
      var (m2, r2) := ExpandConnection(cfg, m1, last, d);
      (m2, r1 + r2)
  }

  /** expand_connection. */
  function ExpandConnection(cfg: Config, memo: Memo, q: Port, d: bool): (r: (Memo, seq<Port>))
    requires Key(q, d) in cfg.Universe()
    ensures memo.Keys <= r.0.Keys && SameBusy(memo, r.0) && OneSide(memo, r.0, d)
    ensures q.idx in cfg.tunnels && cfg.Linked(Key(q, d)) ==> Key(q, d) in r.0
    decreases cfg.Universe() - memo.Keys, 1
  {
    if q.idx !in cfg.tunnels then (memo, [q])
    else if cfg.Linked(Key(q, d)) then Expand(cfg, memo, Key(q, d))
    else (memo, [])
  }

  // ----- Soundness: no port is invented -------------------------------------

  ghost predicate MemoSound(cfg: Config, memo: Memo) {
    forall k, r :: k in memo && memo[k].Done? && r in memo[k].ports ==> Reaches(cfg, k.isoutput, k.port, r)
  }

  lemma BeyondReaches(cfg: Config, k: Key, p: Port, r: Port)
    requires k.port.idx in cfg.tunnels && cfg.Linked(k) && p in cfg.Beyond(k)
    requires Reaches(cfg, k.isoutput, p, r)
    ensures Reaches(cfg, k.isoutput, k.port, r)
  {
    var n: nat :| LeadsTo(cfg, k.isoutput, p, r, n);
    assert LeadsTo(cfg, k.isoutput, k.port, r, n + 1);
  }

  lemma {:induction false} ExpandSound(cfg: Config, memo: Memo, k: Key)
    requires cfg.Valid() && cfg.Linked(k) && k in cfg.Universe() && MemoSound(cfg, memo)
    ensures var (m, out) := Expand(cfg, memo, k);
            MemoSound(cfg, m) && forall r :: r in out ==> Reaches(cfg, k.isoutput, k.port, r)
    decreases cfg.Universe() - memo.Keys, 0
  {
    if k !in memo {
      assert k in cfg.Universe() - memo.Keys && k !in cfg.Universe() - memo[k := Busy].Keys;
      ExpandListSound(cfg, memo[k := Busy], cfg.Beyond(k), k.isoutput);
      var (m, ports) := ExpandList(cfg, memo[k := Busy], cfg.Beyond(k), k.isoutput);
      forall r | r in ports ensures Reaches(cfg, k.isoutput, k.port, r) {
        var q :| q in cfg.Beyond(k) && Reaches(cfg, k.isoutput, q, r);
        BeyondReaches(cfg, k, q, r);
      }
    }
  }

  lemma {:induction false} ExpandListSound(cfg: Config, memo: Memo, ports: seq<Port>, d: bool)
    requires cfg.Valid() && MemoSound(cfg, memo)
    requires forall q :: q in ports ==> Key(q, d) in cfg.Universe()
    ensures var (m, out) := ExpandList(cfg, memo, ports, d);
            MemoSound(cfg, m) && forall r :: r in out ==> exists q :: q in ports && Reaches(cfg, d, q, r)
    decreases cfg.Universe() - memo.Keys, 2 + |ports|
  {
    if ports != [] {
      var front, last := ports[..|ports| - 1], ports[|ports| - 1];
      ExpandListSound(cfg, memo, front, d);
      var (m1, r1) := ExpandList(cfg, memo, front, d);
      ExpandConnectionSound(cfg, m1, last, d);
    }
  }

  lemma {:induction false} ExpandConnectionSound(cfg: Config, memo: Memo, q: Port, d: bool)
    requires cfg.Valid() && Key(q, d) in cfg.Universe() && MemoSound(cfg, memo)
    ensures var (m, out) := ExpandConnection(cfg, memo, q, d);
            MemoSound(cfg, m) && forall r :: r in out ==> Reaches(cfg, d, q, r)
    decreases cfg.Universe() - memo.Keys, 1
  {
    if q.idx !in cfg.tunnels {
      assert LeadsTo(cfg, d, q, q, 0);
    } else if cfg.Linked(Key(q, d)) {
      ExpandSound(cfg, memo, Key(q, d));
    }
  }

  // ----- The graph of tunnel ends -------------------------------------------

  /** Expanding u looks into v. */
  ghost predicate Edge(cfg: Config, u: Key, v: Key) {
    && cfg.Linked(u) && cfg.Linked(v) && v.port.idx in cfg.tunnels
    && v.isoutput == u.isoutput && v.port in cfg.Beyond(u)
  }

  ghost predicate EdgePath(cfg: Config, u: Key, v: Key, n: nat)
    decreases n
  {
    if n == 0 then u == v else exists w :: EdgePath(cfg, u, w, n - 1) && Edge(cfg, w, v)
  }

  ghost predicate EdgeReach(cfg: Config, u: Key, v: Key) {
    exists n: nat :: EdgePath(cfg, u, v, n)
  }

  /** An edge that leaves u's cycles for good.  The other edges are those inside a
      cycle, and the loops at one end. */
  ghost predicate Down(cfg: Config, u: Key, v: Key) {
    Edge(cfg, u, v) && !EdgeReach(cfg, v, u)
  }

  ghost predicate DownPath(cfg: Config, u: Key, v: Key, n: nat)
    decreases n
  {
    if n == 0 then u == v else exists w :: Down(cfg, u, w) && DownPath(cfg, w, v, n - 1)
  }

  ghost predicate DownReach(cfg: Config, u: Key, v: Key) {
    exists n: nat :: DownPath(cfg, u, v, n)
  }

  /** Some path from u to v has at most one edge inside a cycle. */
  ghost predicate OneTurn(cfg: Config, u: Key, v: Key) {
    || DownReach(cfg, u, v)
    || exists x, y :: DownReach(cfg, u, x) && Edge(cfg, x, y) && DownReach(cfg, y, v)
  }

  /** The condition for flattening: whatever can be reached can be reached with at
      most one edge inside a cycle. */
  ghost predicate Flattenable(cfg: Config) {
    forall u, v :: EdgeReach(cfg, u, v) ==> OneTurn(cfg, u, v)
  }

  lemma ReachSelf(cfg: Config, k: Key)
    ensures EdgeReach(cfg, k, k)
  {
    assert EdgePath(cfg, k, k, 0);
  }

  lemma ReachEdge(cfg: Config, u: Key, v: Key, w: Key)
    requires EdgeReach(cfg, u, v) && Edge(cfg, v, w)
    ensures EdgeReach(cfg, u, w)
  {
    var n: nat :| EdgePath(cfg, u, v, n);
    assert EdgePath(cfg, u, w, n + 1);
  }

  lemma EdgeIsReach(cfg: Config, u: Key, v: Key)
    requires Edge(cfg, u, v)
    ensures EdgeReach(cfg, u, v)
  {
    ReachSelf(cfg, u);
    ReachEdge(cfg, u, u, v);
  }

  lemma {:induction false} ReachAlong(cfg: Config, u: Key, v: Key, w: Key, n: nat)
    requires EdgeReach(cfg, u, v) && EdgePath(cfg, v, w, n)
    ensures EdgeReach(cfg, u, w)
    decreases n
  {
    if n > 0 {
      var x :| EdgePath(cfg, v, x, n - 1) && Edge(cfg, x, w);
      ReachAlong(cfg, u, v, x, n - 1);
      ReachEdge(cfg, u, x, w);
    }
  }

  lemma ReachTrans(cfg: Config, u: Key, v: Key, w: Key)
    requires EdgeReach(cfg, u, v) && EdgeReach(cfg, v, w)
    ensures EdgeReach(cfg, u, w)
  {
    var n: nat :| EdgePath(cfg, v, w, n);
    ReachAlong(cfg, u, v, w, n);
  }

  lemma DownSelf(cfg: Config, k: Key)
    ensures DownReach(cfg, k, k)
  {
    assert DownPath(cfg, k, k, 0);
  }

  lemma DownFirst(cfg: Config, u: Key, v: Key, w: Key)
    requires Down(cfg, u, v) && DownReach(cfg, v, w)
    ensures DownReach(cfg, u, w)
  {
    var n: nat :| DownPath(cfg, v, w, n);
    assert DownPath(cfg, u, w, n + 1);
  }

  lemma {:induction false} DownLast(cfg: Config, u: Key, v: Key, w: Key, n: nat)
    requires DownPath(cfg, u, v, n) && Down(cfg, v, w)
    ensures DownReach(cfg, u, w)
    decreases n
  {
    if n == 0 {
      DownSelf(cfg, w);
      DownFirst(cfg, u, w, w);
    } else {
      var x :| Down(cfg, u, x) && DownPath(cfg, x, v, n - 1);
      DownLast(cfg, x, v, w, n - 1);
      DownFirst(cfg, u, x, w);
    }
  }

  /** A path of such edges stays on one side and passes only tunnel ends. */
  lemma {:induction false} DownKeepsSide(cfg: Config, u: Key, v: Key, n: nat)
    requires DownPath(cfg, u, v, n)
    ensures u.isoutput == v.isoutput && (u == v || (cfg.Linked(u) && cfg.Linked(v)))
    decreases n
  {
    if n > 0 {
      var w :| Down(cfg, u, w) && DownPath(cfg, w, v, n - 1);
      DownKeepsSide(cfg, w, v, n - 1);
    }
  }

  // ----- Both directions ----------------------------------------------------

  /** Pairing is an involution. */
  lemma PartnerTwice(cfg: Config, k: Key)
    requires cfg.Valid() && cfg.Linked(k)
    ensures cfg.Linked(cfg.Partner(k)) && cfg.Partner(cfg.Partner(k)) == k
    ensures cfg.Partner(k).port.idx in cfg.tunnels
  {
  }

  /** Looking backwards, every edge is turned round. */
  lemma MirrorEdge(cfg: Config, u: Key, v: Key)
    requires cfg.Valid() && Edge(cfg, u, v)
    ensures Edge(cfg, cfg.Partner(v), cfg.Partner(u))
  {
    PartnerTwice(cfg, u);
    PartnerTwice(cfg, v);
  }

  lemma {:induction false} MirrorPath(cfg: Config, u: Key, v: Key, n: nat)
    requires cfg.Valid() && cfg.Linked(u) && cfg.Linked(v) && EdgePath(cfg, u, v, n)
    ensures EdgeReach(cfg, cfg.Partner(v), cfg.Partner(u))
    decreases n
  {
    if n == 0 {
      ReachSelf(cfg, cfg.Partner(u));
    } else {
      var w :| EdgePath(cfg, u, w, n - 1) && Edge(cfg, w, v);
      MirrorPath(cfg, u, w, n - 1);
      MirrorEdge(cfg, w, v);
      EdgeIsReach(cfg, cfg.Partner(v), cfg.Partner(w));
      ReachTrans(cfg, cfg.Partner(v), cfg.Partner(w), cfg.Partner(u));
    }
  }

  lemma MirrorReach(cfg: Config, u: Key, v: Key)
    requires cfg.Valid() && cfg.Linked(u) && cfg.Linked(v)
    ensures EdgeReach(cfg, u, v) <==> EdgeReach(cfg, cfg.Partner(v), cfg.Partner(u))
  {
    PartnerTwice(cfg, u);
    PartnerTwice(cfg, v);
    if EdgeReach(cfg, u, v) {
      var n: nat :| EdgePath(cfg, u, v, n);
      MirrorPath(cfg, u, v, n);
    }
    if EdgeReach(cfg, cfg.Partner(v), cfg.Partner(u)) {
      var n: nat :| EdgePath(cfg, cfg.Partner(v), cfg.Partner(u), n);
      MirrorPath(cfg, cfg.Partner(v), cfg.Partner(u), n);
    }
  }

  lemma {:induction false} MirrorDown(cfg: Config, u: Key, v: Key, n: nat)
    requires cfg.Valid() && cfg.Linked(u) && cfg.Linked(v) && DownPath(cfg, u, v, n)
    ensures DownReach(cfg, cfg.Partner(v), cfg.Partner(u))
    decreases n
  {
    if n == 0 {
      DownSelf(cfg, cfg.Partner(u));
    } else {
      var w :| Down(cfg, u, w) && DownPath(cfg, w, v, n - 1);
      MirrorDown(cfg, w, v, n - 1);
      MirrorEdge(cfg, u, w);
      MirrorReach(cfg, w, u);
      assert Down(cfg, cfg.Partner(w), cfg.Partner(u));
      var m: nat :| DownPath(cfg, cfg.Partner(v), cfg.Partner(w), m);
      DownLast(cfg, cfg.Partner(v), cfg.Partner(w), cfg.Partner(u), m);
    }
  }

  // ----- What an expansion is sure to find ----------------------------------

  /** r lies beyond some end below k. */
  ghost predicate Below(cfg: Config, k: Key, r: Port) {
    r.idx !in cfg.tunnels && exists v :: DownReach(cfg, k, v) && cfg.Linked(v) && r in cfg.Beyond(v)
  }

  ghost predicate MemoDown(cfg: Config, memo: Memo) {
    forall k, r :: k in memo && memo[k].Done? && Below(cfg, k, r) ==> r in memo[k].ports
  }

  /** The ends being expanded form the path down to k. */
  ghost predicate BusyAbove(cfg: Config, memo: Memo, k: Key) {
    forall g :: IsBusy(memo, g) ==> EdgeReach(cfg, g, k)
  }

  /** What lies below k lies right beyond it, or below the next end. */
  lemma BelowNext(cfg: Config, k: Key, r: Port)
    requires cfg.Linked(k) && Below(cfg, k, r)
    ensures r in cfg.Beyond(k) || exists w :: Down(cfg, k, w) && Below(cfg, w, r)
  {
    var v :| DownReach(cfg, k, v) && cfg.Linked(v) && r in cfg.Beyond(v);
    var n: nat :| DownPath(cfg, k, v, n);
    if n > 0 {
      var w :| Down(cfg, k, w) && DownPath(cfg, w, v, n - 1);
      assert DownReach(cfg, w, v);
    }
  }

  /** A finished end holds every real port that lies below it, whatever the cycles:
      the end met on the way down is never one that is being expanded. */
  lemma {:induction false} ExpandDown(cfg: Config, memo: Memo, k: Key)
    requires cfg.Linked(k) && k in cfg.Universe()
    requires MemoDown(cfg, memo) && BusyAbove(cfg, memo, k) && !IsBusy(memo, k)
    ensures var (m, out) := Expand(cfg, memo, k);
            MemoDown(cfg, m) && forall r :: Below(cfg, k, r) ==> r in out
    decreases cfg.Universe() - memo.Keys, 0
  {
    if k !in memo {
      assert k in cfg.Universe() - memo.Keys && k !in cfg.Universe() - memo[k := Busy].Keys;
      var m0 := memo[k := Busy];
      assert BusyAbove(cfg, m0, k) by { ReachSelf(cfg, k); }
      assert MemoDown(cfg, m0);
      hide MemoDown, Below;
      ExpandListDown(cfg, m0, k, cfg.Beyond(k));
      var (m, ports) := ExpandList(cfg, m0, cfg.Beyond(k), k.isoutput);
      forall r | Below(cfg, k, r) ensures r in ports {
        BelowNext(cfg, k, r);
        BelowIsReal(cfg, k, r);
      }
      MemoFinished(cfg, m, k, ports);
    }
  }

  lemma BelowIsReal(cfg: Config, k: Key, r: Port)
    requires Below(cfg, k, r)
    ensures r.idx !in cfg.tunnels
  {
  }

  lemma MemoFinished(cfg: Config, memo: Memo, k: Key, ports: seq<Port>)
    requires MemoDown(cfg, memo) && forall r :: Below(cfg, k, r) ==> r in ports
    ensures MemoDown(cfg, memo[k := Done(ports)])
  {
    hide Below;
  }

  /** `out` has the real ports among `ports` and what lies below the others. */
  ghost predicate Found(cfg: Config, k: Key, ports: seq<Port>, out: seq<Port>) {
    && (forall r :: r in ports && r.idx !in cfg.tunnels ==> r in out)
    && (forall w: Key, r: Port :: w.port in ports && Down(cfg, k, w) && Below(cfg, w, r) ==> r in out)
  }

  lemma FoundNone(cfg: Config, k: Key)
    ensures Found(cfg, k, [], [])
  {
  }

  lemma FoundBoth(cfg: Config, k: Key, front: seq<Port>, last: Port, out: seq<Port>, more: seq<Port>)
    requires Found(cfg, k, front, out) && Found(cfg, k, [last], more)
    ensures Found(cfg, k, front + [last], out + more)
  {
    hide Down, Below;
  }

  lemma {:induction false} ExpandListDown(cfg: Config, memo: Memo, k: Key, ports: seq<Port>)
    requires cfg.Linked(k) && MemoDown(cfg, memo) && BusyAbove(cfg, memo, k)
    requires forall q :: q in ports ==> q in cfg.Beyond(k) && Key(q, k.isoutput) in cfg.Universe()
    ensures var (m, out) := ExpandList(cfg, memo, ports, k.isoutput);
            MemoDown(cfg, m) && Found(cfg, k, ports, out)
    decreases cfg.Universe() - memo.Keys, 2 + |ports|
  {
    hide MemoDown, Found, BusyAbove, SameBusy, OneSide, ExpandConnection, Opposite;
    if ports == [] {
      FoundNone(cfg, k);
    } else {
      var front, last := ports[..|ports| - 1], ports[|ports| - 1];
      ExpandListDown(cfg, memo, k, front);
      var (m1, r1) := ExpandList(cfg, memo, front, k.isoutput);
      BusyStays(cfg, memo, m1, k);
      ExpandConnectionDown(cfg, m1, k, last);
      var (m2, r2) := ExpandConnection(cfg, m1, last, k.isoutput);
      FoundBoth(cfg, k, front, last, r1, r2);
      assert ports == front + [last];
    }
  }

  lemma BusyStays(cfg: Config, memo: Memo, m: Memo, k: Key)
    requires BusyAbove(cfg, memo, k) && SameBusy(memo, m)
    ensures BusyAbove(cfg, m, k)
  {
  }

  lemma {:induction false} ExpandConnectionDown(cfg: Config, memo: Memo, k: Key, q: Port)
    requires cfg.Linked(k) && MemoDown(cfg, memo) && BusyAbove(cfg, memo, k)
    requires q in cfg.Beyond(k) && Key(q, k.isoutput) in cfg.Universe()
    ensures var (m, out) := ExpandConnection(cfg, memo, q, k.isoutput);
            MemoDown(cfg, m) && Found(cfg, k, [q], out)
    decreases cfg.Universe() - memo.Keys, 1
  {
    var v := Key(q, k.isoutput);
    if q.idx in cfg.tunnels && cfg.Linked(v) {
      assert Edge(cfg, k, v);
      hide MemoDown, Below;
      if !IsBusy(memo, v) {
        forall g | IsBusy(memo, g) ensures EdgeReach(cfg, g, v) { ReachEdge(cfg, g, k, v); }
        ExpandDown(cfg, memo, v);
      }
      forall w: Key, r: Port | w.port == q && Down(cfg, k, w) && Below(cfg, w, r)
        ensures r in ExpandConnection(cfg, memo, q, k.isoutput).1
      {
        assert w == v;
      }
    }
  }

  // ----- The router's connections -------------------------------------------

  /** All pairs of live ports from two lists. */
  function Pairs(froms: seq<Port>, tos: seq<Port>, alive: set<int>): (r: seq<Conn>)
    ensures forall f, t :: Conn(f, t) in r <==>
              f in froms && t in tos && f.idx in alive && t.idx in alive
  {
    if froms == [] then []
    else
      var f := froms[|froms| - 1];
      Pairs(froms[..|froms| - 1], tos, alive)
      + if f.idx in alive then PairsFrom(f, tos, alive) else []
  }

  function PairsFrom(f: Port, tos: seq<Port>, alive: set<int>): (r: seq<Conn>)
    ensures forall c :: c in r <==> c.from == f && c.to in tos && c.to.idx in alive
  {
    if tos == [] then []
    else
      var t := tos[|tos| - 1];
      PairsFrom(f, tos[..|tos| - 1], alive) + if t.idx in alive then [Conn(f, t)] else []
  }

  lemma SidesInUniverse(cfg: Config, c: Conn)
    requires c in cfg.conns
    ensures Key(c.from, true) in cfg.Universe() && Key(c.to, false) in cfg.Universe()
  {
  }

  /** The expansion loop of create_router over the first n connections: the memo
      it leaves and the connections it adds.  `alive` holds the elements that
      made it into the router. */
  function Flatten(cfg: Config, alive: set<int>, n: nat): (Memo, seq<Conn>)
    requires n <= |cfg.conns|
  {
    if n == 0 then (map[], [])
    else
      var (memo, out) := Flatten(cfg, alive, n - 1);
      var c := cfg.conns[n - 1];
      if c.from.idx in alive && c.to.idx in alive then (memo, out)
      else
        SidesInUniverse(cfg, c);
        var (m1, froms) := ExpandConnection(cfg, memo, c.from, true);
        var (m2, tos) := ExpandConnection(cfg, m1, c.to, false);
        (m2, out + Pairs(froms, tos, alive))
  }

  /** A connection the finished router has: an original one between live
      elements, or one that the expansion added. */
  ghost predicate InRouter(cfg: Config, alive: set<int>, c: Conn) {
    && c.from.idx in alive && c.to.idx in alive
    && (c in cfg.conns || c in Flatten(cfg, alive, |cfg.conns|).1)
  }

  // ----- Chains and reachability --------------------------------------------

  lemma {:induction false} ChainBack(cfg: Config, c: Conn, f: Port, n: nat) returns (cs: seq<Conn>)
    requires cfg.Valid() && c in cfg.conns && LeadsTo(cfg, true, c.from, f, n)
    ensures Chain(cfg, cs) && cs[0].from == f && cs[|cs| - 1] == c
    decreases n
  {
    if n == 0 {
      cs := [c];
    } else {
      var k := Key(c.from, true);
      var p :| p in cfg.Beyond(k) && LeadsTo(cfg, true, p, f, n - 1);
      var far := cfg.Partner(k);
      var b :| b in cfg.conns && b.Side(far.isoutput) == far.port && b.Side(!far.isoutput) == p;
      var before := ChainBack(cfg, b, f, n - 1);
      cs := before + [c];
      assert Hop(cfg, b, c);
      ChainAppend(cfg, before, [c]);
    }
  }

  lemma {:induction false} ChainForward(cfg: Config, c: Conn, t: Port, n: nat) returns (cs: seq<Conn>)
    requires cfg.Valid() && c in cfg.conns && LeadsTo(cfg, false, c.to, t, n)
    ensures Chain(cfg, cs) && cs[0] == c && cs[|cs| - 1].to == t
    decreases n
  {
    if n == 0 {
      cs := [c];
    } else {
      var k := Key(c.to, false);
      var p :| p in cfg.Beyond(k) && LeadsTo(cfg, false, p, t, n - 1);
      var far := cfg.Partner(k);
      var d :| d in cfg.conns && d.Side(far.isoutput) == far.port && d.Side(!far.isoutput) == p;
      var after := ChainForward(cfg, d, t, n - 1);
      cs := [c] + after;
      assert Hop(cfg, c, d);
      ChainAppend(cfg, [c], after);
    }
  }

  lemma ChainAppend(cfg: Config, a: seq<Conn>, b: seq<Conn>)
    requires Chain(cfg, a) && Chain(cfg, b) && Hop(cfg, a[|a| - 1], b[0])
    ensures Chain(cfg, a + b)
  {
    var cs := a + b;
    forall i | 0 <= i < |cs| - 1 ensures Hop(cfg, cs[i], cs[i + 1]) {
      assert i < |a| - 1 ==> Hop(cfg, a[i], a[i + 1]);
      assert i >= |a| ==> Hop(cfg, b[i - |a|], b[i - |a| + 1]);
    }
  }

  /** The two half-chains around one connection make a whole. */
  lemma JoinedAround(cfg: Config, c: Conn, f: Port, t: Port)
    requires cfg.Valid() && c in cfg.conns
    requires Reaches(cfg, true, c.from, f) && Reaches(cfg, false, c.to, t)
    ensures Joined(cfg, f, t)
  {
    var n: nat :| LeadsTo(cfg, true, c.from, f, n);
    var m: nat :| LeadsTo(cfg, false, c.to, t, m);
    RealEnd(cfg, true, c.from, f, n);
    RealEnd(cfg, false, c.to, t, m);
    var back := ChainBack(cfg, c, f, n);
    var forth := ChainForward(cfg, c, t, m);
    var cs := back;
    if |forth| > 1 {
      var rest := forth[1..];
      assert Chain(cfg, rest) by {
        forall i | 0 <= i < |rest| - 1 ensures Hop(cfg, rest[i], rest[i + 1]) {
          assert Hop(cfg, forth[i + 1], forth[i + 2]);
        }
      }
      assert Hop(cfg, forth[0], forth[1]);
      ChainAppend(cfg, back, rest);
      cs := back + rest;
    }
    assert Chain(cfg, cs) && cs[0].from == f && cs[|cs| - 1].to == t;
  }

  lemma {:induction false} RealEnd(cfg: Config, d: bool, q: Port, r: Port, n: nat)
    requires LeadsTo(cfg, d, q, r, n)
    ensures r.idx !in cfg.tunnels
    decreases n
  {
    if n > 0 {
      var p :| p in cfg.Beyond(Key(q, d)) && LeadsTo(cfg, d, p, r, n - 1);
      RealEnd(cfg, d, p, r, n - 1);
    }
  }

  /** The tunnels along a chain. */
  lemma {:induction false} ChainEdges(cfg: Config, cs: seq<Conn>, j: nat)
    requires cfg.Valid() && Chain(cfg, cs) && j < |cs| - 1
    ensures cfg.Linked(Key(cs[j].to, false)) && EdgeReach(cfg, Key(cs[0].to, false), Key(cs[j].to, false))
    decreases j
  {
    assert Hop(cfg, cs[j], cs[j + 1]);
    if j == 0 {
      ReachSelf(cfg, Key(cs[0].to, false));
    } else {
      ChainEdges(cfg, cs, j - 1);
      var u, v := Key(cs[j - 1].to, false), Key(cs[j].to, false);
      assert Hop(cfg, cs[j - 1], cs[j]);
      assert cs[j].Side(true) == cfg.Partner(u).port && cs[j].Side(false) == v.port;
      assert Edge(cfg, u, v);
      ReachEdge(cfg, Key(cs[0].to, false), u, v);
    }
  }

  // ----- Main results -------------------------------------------------------

  lemma {:induction false} FlattenSound(cfg: Config, alive: set<int>, n: nat)
    requires cfg.Valid() && n <= |cfg.conns|
    ensures var (memo, out) := Flatten(cfg, alive, n);
            MemoSound(cfg, memo) && forall c :: c in out ==> Joined(cfg, c.from, c.to)
  {
    if n > 0 {
      FlattenSound(cfg, alive, n - 1);
      var (memo, out) := Flatten(cfg, alive, n - 1);
      var c := cfg.conns[n - 1];
      if !(c.from.idx in alive && c.to.idx in alive) {
        SidesInUniverse(cfg, c);
        ExpandConnectionSound(cfg, memo, c.from, true);
        var (m1, froms) := ExpandConnection(cfg, memo, c.from, true);
        ExpandConnectionSound(cfg, m1, c.to, false);
        var (m2, tos) := ExpandConnection(cfg, m1, c.to, false);
        forall e | e in Pairs(froms, tos, alive) ensures Joined(cfg, e.from, e.to) {
          assert Conn(e.from, e.to) == e;
          JoinedAround(cfg, c, e.from, e.to);
        }
      }
    }
  }

  /** The expansion of port q is sure to hold r. */
  ghost predicate Sees(cfg: Config, d: bool, q: Port, r: Port) {
    if q.idx in cfg.tunnels then cfg.Linked(Key(q, d)) && Below(cfg, Key(q, d), r) else q == r
  }

  /** One port expanded from a quiet memo. */
  lemma PortSees(cfg: Config, memo: Memo, q: Port, d: bool)
    requires Key(q, d) in cfg.Universe() && MemoDown(cfg, memo) && forall k :: !IsBusy(memo, k)
    ensures var (m, out) := ExpandConnection(cfg, memo, q, d);
            && MemoDown(cfg, m) && (forall k :: !IsBusy(m, k))
            && forall r :: Sees(cfg, d, q, r) ==> r in out
  {
    hide MemoDown, Below;
    if q.idx in cfg.tunnels && cfg.Linked(Key(q, d)) { ExpandDown(cfg, memo, Key(q, d)); }
  }

  /** `out` has every live pair that a connection in need of expansion sees. */
  ghost predicate Covered(cfg: Config, alive: set<int>, c: Conn, out: seq<Conn>) {
    forall f: Port, t: Port ::
      && f.idx in alive && t.idx in alive && !(c.from.idx in alive && c.to.idx in alive)
      && Sees(cfg, true, c.from, f) && Sees(cfg, false, c.to, t)
      ==> Conn(f, t) in out
  }

  lemma CoveredByPairs(cfg: Config, alive: set<int>, c: Conn, froms: seq<Port>, tos: seq<Port>, out: seq<Conn>)
    requires forall f :: Sees(cfg, true, c.from, f) ==> f in froms
    requires forall t :: Sees(cfg, false, c.to, t) ==> t in tos
    ensures Covered(cfg, alive, c, out + Pairs(froms, tos, alive))
  {
    hide Sees;
  }

  lemma {:induction false} FlattenCovers(cfg: Config, alive: set<int>, n: nat)
    requires n <= |cfg.conns|
    ensures var (memo, out) := Flatten(cfg, alive, n);
            && MemoDown(cfg, memo) && (forall k :: !IsBusy(memo, k))
            && forall i :: 0 <= i < n ==> Covered(cfg, alive, cfg.conns[i], out)
  {
    hide MemoDown, Sees;
    if n == 0 {
      assert MemoDown(cfg, map[]) by { NothingFinished(cfg); }
    } else {
      FlattenCovers(cfg, alive, n - 1);
      var (memo, out) := Flatten(cfg, alive, n - 1);
      var c := cfg.conns[n - 1];
      if !(c.from.idx in alive && c.to.idx in alive) {
        SidesInUniverse(cfg, c);
        PortSees(cfg, memo, c.from, true);
        var (m1, froms) := ExpandConnection(cfg, memo, c.from, true);
        PortSees(cfg, m1, c.to, false);
        var (m2, tos) := ExpandConnection(cfg, m1, c.to, false);
        CoveredByPairs(cfg, alive, c, froms, tos, out);
        assert Flatten(cfg, alive, n) == (m2, out + Pairs(froms, tos, alive));
        forall i | 0 <= i < n - 1 ensures Covered(cfg, alive, cfg.conns[i], out + Pairs(froms, tos, alive)) {
          assert Covered(cfg, alive, cfg.conns[i], out);
        }
      }
    }
  }

  lemma NothingFinished(cfg: Config)
    ensures MemoDown(cfg, map[])
  {
  }

  /** create_router joins no ports that the configuration does not join. */
  lemma RouterSound(cfg: Config, alive: set<int>, c: Conn)
    requires cfg.Valid() && alive !! cfg.tunnels && InRouter(cfg, alive, c)
    ensures Joined(cfg, c.from, c.to)
  {
    FlattenSound(cfg, alive, |cfg.conns|);
    if c in cfg.conns { assert Chain(cfg, [c]); }
  }

  /** A pair that some connection sees is in the router. */
  lemma SeenIsJoined(cfg: Config, alive: set<int>, c: Conn, f: Port, t: Port)
    requires alive !! cfg.tunnels && c in cfg.conns && f.idx in alive && t.idx in alive
    requires c.from.idx in cfg.tunnels || c.to.idx in cfg.tunnels
    requires Sees(cfg, true, c.from, f) && Sees(cfg, false, c.to, t)
    ensures InRouter(cfg, alive, Conn(f, t))
  {
    hide Sees;
    var i :| 0 <= i < |cfg.conns| && cfg.conns[i] == c;
    FlattenCovers(cfg, alive, |cfg.conns|);
    assert Covered(cfg, alive, cfg.conns[i], Flatten(cfg, alive, |cfg.conns|).1);
  }

  /** From end u on, whose tunnel f leads into, to end v, whose tunnel leads to t. */
  lemma TurnIsJoined(cfg: Config, alive: set<int>, u: Key, v: Key, f: Port, t: Port)
    requires cfg.Valid() && alive !! cfg.tunnels && f.idx in alive && t.idx in alive
    requires cfg.Linked(u) && cfg.Linked(v) && !u.isoutput && u.port.idx in cfg.tunnels
    requires Conn(f, u.port) in cfg.conns && t in cfg.Beyond(v) && OneTurn(cfg, u, v)
    ensures InRouter(cfg, alive, Conn(f, t))
  {
    if DownReach(cfg, u, v) {
      assert Below(cfg, u, t);
      SeenIsJoined(cfg, alive, Conn(f, u.port), f, t);
    } else {
      var x, y :| DownReach(cfg, u, x) && Edge(cfg, x, y) && DownReach(cfg, y, v);
      var n: nat :| DownPath(cfg, u, x, n);
      DownKeepsSide(cfg, u, x, n);
      MirrorDown(cfg, u, x, n);
      PartnerTwice(cfg, u);
      PartnerTwice(cfg, x);
      var c := Conn(cfg.Partner(x).port, y.port);
      assert c in cfg.conns;
      assert Below(cfg, cfg.Partner(x), f) by {
        assert Conn(f, u.port).Side(false) == u.port;
        assert f in cfg.Beyond(cfg.Partner(u));
      }
      assert Below(cfg, y, t);
      assert Key(c.from, true) == cfg.Partner(x) && Key(c.to, false) == y;
      SeenIsJoined(cfg, alive, c, f, t);
    }
  }

  /** A chain is kept if one turn leads from its first tunnel to its last. */
  lemma ChainKept(cfg: Config, alive: set<int>, cs: seq<Conn>)
    requires cfg.Valid() && alive !! cfg.tunnels && Chain(cfg, cs)
    requires cs[0].from.idx in alive && cs[|cs| - 1].to.idx in alive
    requires |cs| > 1 ==> OneTurn(cfg, Key(cs[0].to, false), Key(cs[|cs| - 2].to, false))
    ensures InRouter(cfg, alive, Conn(cs[0].from, cs[|cs| - 1].to))
  {
    var f, t := cs[0].from, cs[|cs| - 1].to;
    if |cs| > 1 {
      var j := |cs| - 2;
      ChainEdges(cfg, cs, 0);
      ChainEdges(cfg, cs, j);
      var u, v := Key(cs[0].to, false), Key(cs[j].to, false);
      assert Hop(cfg, cs[j], cs[j + 1]);
      assert cs[j + 1].Side(true) == cfg.Partner(v).port && cs[j + 1].Side(false) == t;
      assert cs[0] == Conn(f, u.port);
      TurnIsJoined(cfg, alive, u, v, f, t);
    } else {
      assert Conn(f, t) == cs[0];
    }
  }

  /** create_router joins exactly the ports that the configuration joins, provided
      one edge inside a cycle is enough on every way. */
  lemma RouterExact(cfg: Config, alive: set<int>, f: Port, t: Port)
    requires cfg.Valid() && Flattenable(cfg) && alive !! cfg.tunnels
    ensures InRouter(cfg, alive, Conn(f, t)) <==> f.idx in alive && t.idx in alive && Joined(cfg, f, t)
  {
    if InRouter(cfg, alive, Conn(f, t)) { RouterSound(cfg, alive, Conn(f, t)); }
    if f.idx in alive && t.idx in alive && Joined(cfg, f, t) {
      var cs: seq<Conn> :| Chain(cfg, cs) && cs[0].from == f && cs[|cs| - 1].to == t;
      if |cs| > 1 { ChainEdges(cfg, cs, |cs| - 2); }
      ChainKept(cfg, alive, cs);
    }
  }

  /** Whatever the cycles, a chain through at most two tunnels is kept. */
  lemma ShortChainKept(cfg: Config, alive: set<int>, cs: seq<Conn>)
    requires cfg.Valid() && alive !! cfg.tunnels && Chain(cfg, cs) && |cs| <= 3
    requires cs[0].from.idx in alive && cs[|cs| - 1].to.idx in alive
    ensures InRouter(cfg, alive, Conn(cs[0].from, cs[|cs| - 1].to))
  {
    if |cs| > 1 {
      var u := Key(cs[0].to, false);
      DownSelf(cfg, u);
      if |cs| == 3 {
        var v := Key(cs[1].to, false);
        DownSelf(cfg, v);
        ChainEdges(cfg, cs, 0);
        ChainEdges(cfg, cs, 1);
        assert Hop(cfg, cs[0], cs[1]);
        assert cs[1].Side(true) == cfg.Partner(u).port && cs[1].Side(false) == v.port;
        assert Edge(cfg, u, v);
      }
    }
    ChainKept(cfg, alive, cs);
  }

  /** No cycle runs through two different tunnel ends. */
  ghost predicate Acyclic(cfg: Config) {
    forall u, v :: EdgeReach(cfg, u, v) && EdgeReach(cfg, v, u) ==> u == v
  }

  /** In particular the condition holds where there are no cycles. */
  lemma {:induction false} AcyclicFlattenable(cfg: Config, u: Key, v: Key, n: nat)
    requires Acyclic(cfg) && EdgePath(cfg, u, v, n)
    ensures DownReach(cfg, u, v)
    decreases n
  {
    if n == 0 {
      DownSelf(cfg, u);
    } else {
      var w :| EdgePath(cfg, u, w, n - 1) && Edge(cfg, w, v);
      AcyclicFlattenable(cfg, u, w, n - 1);
      EdgeIsReach(cfg, w, v);
      if w != v {
        assert Down(cfg, w, v);
        var m: nat :| DownPath(cfg, u, w, m);
        DownLast(cfg, u, w, v, m);
      }
    }
  }
}
