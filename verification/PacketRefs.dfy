/** Reference-counted packet data (user-level part of lib/packet.cc).

    Packet objects and data buffers are named by numbers that are never reused,
    so that the log of released buffers can be checked.  `held` is the set of
    packets that user code has a handle to; the source has no such field, it is
    what makes the rules for calling kill() and friends expressible.
 */
module PacketRefs {
  import opened Wrappers

  // ----- Data ---------------------------------------------------------------

  type Byte = bv8

  /** class Packet: use count, origin of shared data, buffer, data window in the
      buffer, and whether a buffer destructor was supplied. */
  datatype Packet = Packet(useCount: int, dataPacket: Option<nat>, buf: nat, headroom: nat, length: nat,
                           destructor: bool)

  /** A released buffer, and whether its destructor function was called instead
      of delete[]. */
  datatype Freed = Freed(buf: nat, byDestructor: bool)

  datatype Heap = Heap(packets: map<nat, Packet>, held: set<nat>, mem: map<nat, seq<Byte>>, foreign: set<nat>,
                       log: seq<Freed>, nextId: nat, nextBuf: nat)

  const EMPTY := Heap(map[], {}, map[], {}, [], 0, 0)
  const MIN_BUFFER_LENGTH := 64

  // ----- Invariant ----------------------------------------------------------

  ghost function Clones(h: Heap, p: nat): set<nat> {
    set q | q in h.packets && h.packets[q].dataPacket == Some(p)
  }

  ghost function References(h: Heap, debt: Option<nat>, p: nat): nat {
    (if p in h.held then 1 else 0) + |Clones(h, p)| + (if debt == Some(p) then 1 else 0)
  }

  /** A clone shares the buffer of an origin, which is not itself a clone. */
  ghost predicate ShareOk(h: Heap, p: nat)
    requires p in h.packets
  {
    var k := h.packets[p];
    && k.buf in h.mem && k.headroom + k.length <= |h.mem[k.buf]|
    && match k.dataPacket
       case None => k.destructor <==> k.buf in h.foreign
       case Some(o) => !k.destructor && o in h.packets && h.packets[o].dataPacket == None && h.packets[o].buf == k.buf
  }

  ghost predicate SharesOk(h: Heap) {
    forall p :: p in h.packets ==> ShareOk(h, p)
  }

  /** Use count = own handle + live clones (+ one reference about to be dropped). */
  ghost predicate CountsOk(h: Heap, debt: Option<nat>) {
    && h.held <= h.packets.Keys
    && (forall p :: p in h.packets ==> h.packets[p].useCount == References(h, debt, p) > 0)
  }

  ghost predicate IsOrigin(h: Heap, p: nat) {
    p in h.packets && h.packets[p].dataPacket == None
  }

  ghost predicate HasOrigin(h: Heap, b: nat) {
    exists p :: IsOrigin(h, p) && h.packets[p].buf == b
  }

  /** Each live buffer belongs to exactly one origin. */
  ghost predicate BuffersOk(h: Heap) {
    && (forall b :: b in h.mem ==> HasOrigin(h, b))
    && (forall p, q :: IsOrigin(h, p) && IsOrigin(h, q) && p != q ==> h.packets[p].buf != h.packets[q].buf)
  }

  ghost predicate InLog(h: Heap, b: nat) {
    exists i :: 0 <= i < |h.log| && h.log[i].buf == b
  }

  /** Every buffer ever made is live or was released once, in the right way. */
  ghost predicate LogOk(h: Heap) {
    && (forall i, j :: 0 <= i < j < |h.log| ==> h.log[i].buf != h.log[j].buf)
    && (forall i :: 0 <= i < |h.log| ==> (h.log[i].byDestructor <==> h.log[i].buf in h.foreign))
    && (forall b: nat :: b < h.nextBuf ==> (b in h.mem <==> !InLog(h, b)))
    && (forall b: nat :: b >= h.nextBuf ==> b !in h.mem && b !in h.foreign && !InLog(h, b))
    && (forall p :: p in h.packets ==> p < h.nextId)
  }

  ghost predicate Inv(h: Heap, debt: Option<nat>) {
    SharesOk(h) && CountsOk(h, debt) && BuffersOk(h) && LogOk(h)
  }

  ghost predicate HeapOk(h: Heap) { Inv(h, None) }

  /** The bytes a packet's owner sees. */
  function Data(h: Heap, p: nat): seq<Byte>
    requires p in h.packets && h.packets[p].buf in h.mem
    requires h.packets[p].headroom + h.packets[p].length <= |h.mem[h.packets[p].buf]|
  {
    h.mem[h.packets[p].buf][h.packets[p].headroom..h.packets[p].headroom + h.packets[p].length]
  }

  // ----- Operations ---------------------------------------------------------

  function Release(h: Heap, buf: nat, byDestructor: bool): Heap {
    h.(mem := h.mem - {buf}, log := h.log + [Freed(buf, byDestructor)])
  }

  /** Packet::kill with Packet::~Packet.  (Unknown packets are ignored here and
      below only to make the functions total.) */
  function Drop(h: Heap, p: nat): Heap
    decreases |h.packets|
  {
    if p !in h.packets then h
    else
      var k := h.packets[p];
      if k.useCount > 1 then h.(packets := h.packets[p := k.(useCount := k.useCount - 1)])
      else
        var h1 := h.(packets := h.packets - {p});
        assert h1.packets.Keys == h.packets.Keys - {p};
        match k.dataPacket
        case None => Release(h1, k.buf, k.destructor)
        case Some(o) => Drop(h1, o)
  }

  /** kill() called by the owner of a handle. */
  function Kill(h: Heap, p: nat): Heap {
    Drop(h.(held := h.held - {p}), p)
  }

  /** Packet::clone when memory for the clone is available. */
  function Clone(h: Heap, p: nat): Heap {
    if p !in h.packets then h
    else
      var k, id := h.packets[p], h.nextId;
      var origin := if k.dataPacket.Some? then k.dataPacket.value else p;
      if origin !in h.packets then h
      else
        var o := h.packets[origin];
        h.(packets := h.packets[id := k.(useCount := 1, dataPacket := Some(origin), destructor := false)]
                               [origin := o.(useCount := o.useCount + 1)],
           held := h.held + {id}, nextId := id + 1)
  }

  /** Packet::make when memory is available.  `foreign` tells the variant that
      takes over the caller's buffer with a destructor. */
  function Make(h: Heap, buffer: seq<Byte>, headroom: nat, length: nat, foreign: bool): Heap {
    var id, b := h.nextId, h.nextBuf;
    h.(packets := h.packets[id := Packet(1, None, b, headroom, length, foreign)], held := h.held + {id},
       mem := h.mem[b := buffer], foreign := if foreign then h.foreign + {b} else h.foreign,
       nextId := id + 1, nextBuf := b + 1)
  }

  /** Size of the buffer that alloc_data provides. */
  function BufferSize(n: nat): nat { if n < MIN_BUFFER_LENGTH then MIN_BUFFER_LENGTH else n }

  /** The copy made by expensive_uniqueify: the old buffer without what is cut
      off, behind the extra headroom; `fill` stands for uninitialised bytes. */
  function Resized(was: seq<Byte>, extraHeadroom: int, extraTailroom: int, fill: Byte): (r: seq<Byte>)
    requires |was| + extraHeadroom + extraTailroom >= 0
    ensures |r| == BufferSize(|was| + extraHeadroom + extraTailroom)
  {
    seq(BufferSize(|was| + extraHeadroom + extraTailroom), i requires 0 <= i =>
      var from := i - extraHeadroom;
      if 0 <= from < |was| && from < |was| + extraTailroom then was[from] else fill)
  }

  /** The assertion at the start of expensive_uniqueify. */
  predicate RoomOk(h: Heap, p: nat, extraHeadroom: int, extraTailroom: int) {
    && p in h.packets && h.packets[p].buf in h.mem
    && var k := h.packets[p];
       && k.headroom + extraHeadroom >= 0 && k.headroom + k.length <= |h.mem[k.buf]|
       && |h.mem[k.buf]| - k.headroom - k.length + extraTailroom >= 0
  }

  /** alloc_data and the copy: packet p owns a new buffer. */
  function WithOwnBuffer(h: Heap, p: nat, extraHeadroom: int, extraTailroom: int, fill: Byte): Heap
    requires RoomOk(h, p, extraHeadroom, extraTailroom)
  {
    var k, b := h.packets[p], h.nextBuf;
    h.(packets := h.packets[p := Packet(1, None, b, k.headroom + extraHeadroom, k.length, false)],
       mem := h.mem[b := Resized(h.mem[k.buf], extraHeadroom, extraTailroom, fill)], nextBuf := b + 1)
  }

  /** Give packet p a buffer of its own and let go of the old data. */
  function Rebuffer(h: Heap, p: nat, extraHeadroom: int, extraTailroom: int, fill: Byte): Heap {
    if !RoomOk(h, p, extraHeadroom, extraTailroom) then h
    else
      var h1 := WithOwnBuffer(h, p, extraHeadroom, extraTailroom, fill);
      match h.packets[p].dataPacket
      case None => Release(h1, h.packets[p].buf, h.packets[p].destructor)
      case Some(o) => Drop(h1, o)
  }

  /** What the allocator grants during one call. */
  datatype Memory = Memory(objectOk: bool, bufferOk: bool)

  /** Packet::expensive_uniqueify. */
  function ExpensiveUniqueify(h: Heap, p: nat, extraHeadroom: int, extraTailroom: int, freeOnFailure: bool,
                              memory: Memory, fill: Byte): (r: (Heap, Option<nat>))
  {
    if p in h.packets && h.packets[p].useCount > 1 then
      if !memory.objectOk then (if freeOnFailure then Kill(h, p) else h, None)
      else
        var h1, c := Clone(h, p), h.nextId;
        if memory.bufferOk then (Kill(Rebuffer(h1, c, extraHeadroom, extraTailroom, fill), p), Some(c))
        else (if freeOnFailure then Kill(Kill(h1, c), p) else Kill(h1, c), None)
    else if !memory.bufferOk then (if freeOnFailure then Kill(h, p) else h, None)
    else (Rebuffer(h, p, extraHeadroom, extraTailroom, fill), Some(p))
  }

  // ----- Dropping references ------------------------------------------------

  /** What an operation may not disturb: packets that user code still holds, the
      bytes of the buffers that stay, and the past. */
  ghost predicate Keeps(h: Heap, h': Heap) {
    && h'.held == h.held && h'.foreign == h.foreign && h'.nextId == h.nextId && h'.nextBuf == h.nextBuf
    && h.log <= h'.log && CountsFall(h, h')
    && (forall q :: q in h.held && q in h.packets ==> q in h'.packets && SameButCount(h.packets[q], h'.packets[q]))
    && (forall b :: b in h'.mem ==> b in h.mem && h'.mem[b] == h.mem[b])
  }

  ghost predicate CountsFall(h: Heap, h': Heap) {
    forall q :: q in h'.packets ==> q in h.packets && h'.packets[q].useCount <= h.packets[q].useCount
  }

  ghost predicate SameButCount(a: Packet, b: Packet) {
    b == a.(useCount := b.useCount)
  }

  /** Only use counts change. */
  ghost predicate CountsChanged(h: Heap, h': Heap) {
    && h' == h.(packets := h'.packets) && h'.packets.Keys == h.packets.Keys
    && (forall q :: q in h.packets ==> SameButCount(h.packets[q], h'.packets[q]))
  }

  lemma CountsChangedShares(h: Heap, h': Heap)
    requires CountsChanged(h, h') && SharesOk(h)
    ensures SharesOk(h')
  {
    forall q | q in h'.packets ensures ShareOk(h', q) {
      assert ShareOk(h, q) && SameButCount(h.packets[q], h'.packets[q]);
      if h.packets[q].dataPacket.Some? {
        var o := h.packets[q].dataPacket.value;
        assert SameButCount(h.packets[o], h'.packets[o]);
      }
    }
  }

  lemma CountsChangedBuffers(h: Heap, h': Heap)
    requires CountsChanged(h, h') && BuffersOk(h)
    ensures BuffersOk(h')
  {
    forall q ensures IsOrigin(h', q) <==> IsOrigin(h, q) {
      if q in h.packets { assert SameButCount(h.packets[q], h'.packets[q]); }
    }
    forall b | b in h'.mem ensures HasOrigin(h', b) {
      assert HasOrigin(h, b);
      var o :| IsOrigin(h, o) && h.packets[o].buf == b;
      assert IsOrigin(h', o) && h'.packets[o].buf == b;
    }
    forall p, q | IsOrigin(h', p) && IsOrigin(h', q) && p != q ensures h'.packets[p].buf != h'.packets[q].buf {
      assert IsOrigin(h, p) && IsOrigin(h, q);
    }
  }

  lemma CountsChangedClones(h: Heap, h': Heap, q: nat)
    requires CountsChanged(h, h')
    ensures Clones(h', q) == Clones(h, q)
  {
    forall p | p in h.packets ensures h'.packets[p].dataPacket == h.packets[p].dataPacket {
      assert SameButCount(h.packets[p], h'.packets[p]);
    }
  }

  lemma LogDepends(h: Heap, h': Heap)
    requires LogOk(h) && h'.log == h.log && h'.mem.Keys == h.mem.Keys && h'.foreign == h.foreign
    requires h'.nextBuf == h.nextBuf && h'.nextId == h.nextId && h'.packets.Keys <= h.packets.Keys
    ensures LogOk(h')
  {
    assert forall b :: InLog(h', b) <==> InLog(h, b);
  }

  lemma ShareAt(h: Heap, p: nat)
    requires SharesOk(h) && p in h.packets
    ensures ShareOk(h, p)
  {
  }

  lemma Decrement(h: Heap, p: nat)
    requires Inv(h, Some(p)) && p in h.packets && h.packets[p].useCount > 1
    ensures Inv(Drop(h, p), None) && Keeps(h, Drop(h, p))
  {
    hide SharesOk, BuffersOk, LogOk, Clones;
    var h' := h.(packets := h.packets[p := h.packets[p].(useCount := h.packets[p].useCount - 1)]);
    assert Drop(h, p) == h';
    CountsChangedShares(h, h');
    CountsChangedBuffers(h, h');
    LogDepends(h, h');
    forall q ensures Clones(h', q) == Clones(h, q) { CountsChangedClones(h, h', q); }
  }

  /** Packet p is gone, everything else is as it was. */
  ghost predicate Without(h: Heap, h': Heap, p: nat) {
    h'.packets == h.packets - {p} && h'.held == h.held && p !in h.held
  }

  lemma ForgottenClones(h: Heap, h': Heap, p: nat, q: nat)
    requires Without(h, h', p) && p in h.packets
    ensures |Clones(h', q)| == |Clones(h, q)| - if h.packets[p].dataPacket == Some(q) then 1 else 0
  {
    if h.packets[p].dataPacket == Some(q) {
      assert Clones(h', q) == Clones(h, q) - {p} && p in Clones(h, q);
    } else {
      assert Clones(h', q) == Clones(h, q);
    }
  }

  lemma ForgottenCounts(h: Heap, h': Heap, p: nat, debt: Option<nat>)
    requires CountsOk(h, Some(p)) && p in h.packets && Without(h, h', p) && debt == h.packets[p].dataPacket != Some(p)
    ensures CountsOk(h', debt)
  {
    hide Clones;
    forall q | q in h'.packets ensures References(h', debt, q) == References(h, Some(p), q) {
      ForgottenClones(h, h', p, q);
    }
  }

  lemma LastReference(h: Heap, p: nat)
    requires CountsOk(h, Some(p)) && p in h.packets && h.packets[p].useCount <= 1
    ensures p !in h.held && Clones(h, p) == {}
  {
    assert References(h, Some(p), p) == 1;
  }

  /** Destroying a clone passes the reference it held on to its origin. */
  lemma ForgetClone(h: Heap, p: nat)
    requires Inv(h, Some(p)) && p in h.packets && h.packets[p].useCount <= 1 && h.packets[p].dataPacket.Some?
    ensures var h1 := h.(packets := h.packets - {p}); var o := h.packets[p].dataPacket.value;
            p !in h.held && o in h1.packets && Inv(h1, Some(o)) && Keeps(h, h1)
  {
    hide SharesOk, CountsOk, BuffersOk, LogOk, Clones;
    var h1, o := h.(packets := h.packets - {p}), h.packets[p].dataPacket.value;
    ShareAt(h, p);
    LastReference(h, p);
    ForgottenCounts(h, h1, p, Some(o));
    ForgetCloneShares(h, h1, p);
    LogDepends(h, h1);
  }

  lemma ForgetCloneShares(h: Heap, h1: Heap, p: nat)
    requires SharesOk(h) && BuffersOk(h) && p in h.packets && h.packets[p].dataPacket.Some?
    requires h1 == h.(packets := h.packets - {p})
    ensures SharesOk(h1) && BuffersOk(h1)
  {
    assert forall q :: IsOrigin(h1, q) <==> IsOrigin(h, q);
    forall q | q in h1.packets ensures ShareOk(h1, q) { assert ShareOk(h, q); }
    forall b | b in h.mem ensures HasOrigin(h1, b) {
      var q :| IsOrigin(h, q) && h.packets[q].buf == b;
      assert IsOrigin(h1, q);
    }
  }

  lemma LogRelease(h: Heap, h': Heap, b: nat, byDestructor: bool)
    requires LogOk(h) && b in h.mem && (byDestructor <==> b in h.foreign)
    requires h'.log == h.log + [Freed(b, byDestructor)] && h'.mem == h.mem - {b}
    requires h'.foreign == h.foreign && h'.nextBuf == h.nextBuf && h'.nextId == h.nextId
    requires h'.packets.Keys <= h.packets.Keys
    ensures LogOk(h')
  {
    assert b < h.nextBuf && !InLog(h, b);
    forall c: nat ensures InLog(h', c) <==> InLog(h, c) || c == b {
      if InLog(h, c) {
        var i :| 0 <= i < |h.log| && h.log[i].buf == c;
        assert h'.log[i].buf == c;
      }
      if c == b { assert h'.log[|h.log|].buf == b; }
    }
    forall i, j | 0 <= i < j < |h'.log| ensures h'.log[i].buf != h'.log[j].buf {
      assert h'.log[i] == h.log[i];
    }
  }

  lemma ForgetOriginShares(h: Heap, h': Heap, p: nat)
    requires SharesOk(h) && BuffersOk(h) && IsOrigin(h, p) && Clones(h, p) == {}
    requires h'.packets == h.packets - {p} && h'.mem == h.mem - {h.packets[p].buf} && h'.foreign == h.foreign
    ensures SharesOk(h') && BuffersOk(h')
  {
    assert forall q :: IsOrigin(h', q) <==> IsOrigin(h, q) && q != p;
    forall q | q in h'.packets ensures ShareOk(h', q) {
      assert ShareOk(h, q);
      var o := if h.packets[q].dataPacket == None then q else h.packets[q].dataPacket.value;
      assert o == p ==> q in Clones(h, p);
      assert IsOrigin(h, o);
    }
    forall b | b in h'.mem ensures HasOrigin(h', b) {
      var q :| IsOrigin(h, q) && h.packets[q].buf == b;
      assert IsOrigin(h', q);
    }
  }

  /** Destroying an origin without references releases its buffer. */
  lemma ForgetOrigin(h: Heap, p: nat)
    requires Inv(h, Some(p)) && p in h.packets && h.packets[p].useCount <= 1 && h.packets[p].dataPacket == None
    ensures Inv(Drop(h, p), None) && Keeps(h, Drop(h, p))
  {
    hide SharesOk, CountsOk, BuffersOk, LogOk, Clones;
    var k := h.packets[p];
    var h' := Release(h.(packets := h.packets - {p}), k.buf, k.destructor);
    assert Drop(h, p) == h';
    ShareAt(h, p);
    LastReference(h, p);
    ForgottenCounts(h, h', p, None);
    ForgetOriginShares(h, h', p);
    LogRelease(h, h', k.buf, k.destructor);
  }

  /** Dropping a reference that is accounted for restores the invariant. */
  lemma DropOk(h: Heap, p: nat)
    requires Inv(h, Some(p)) && p in h.packets
    ensures HeapOk(Drop(h, p)) && Keeps(h, Drop(h, p))
  {
    if h.packets[p].useCount > 1 {
      Decrement(h, p);
    } else if h.packets[p].dataPacket == None {
      ForgetOrigin(h, p);
    } else {
      ForgetClone(h, p);
      var h1, o := h.(packets := h.packets - {p}), h.packets[p].dataPacket.value;
      if h1.packets[o].useCount > 1 { Decrement(h1, o); } else { ForgetOrigin(h1, o); }
    }
  }

  // ----- The operations keep the invariant ----------------------------------

  /** Packet q is still held, and its owner sees the same bytes. */
  ghost predicate Undisturbed(h: Heap, h': Heap, q: nat)
    requires q in h.packets
  {
    && q in h'.held && q in h'.packets && SameButCount(h.packets[q], h'.packets[q])
    && h.packets[q].buf in h.mem && h.packets[q].buf in h'.mem
    && h'.mem[h.packets[q].buf] == h.mem[h.packets[q].buf]
  }

  lemma HeldIsLive(h: Heap, q: nat)
    requires HeapOk(h) && q in h.held
    ensures q in h.packets && ShareOk(h, q)
  {
    ShareAt(h, q);
  }

  lemma KeptMeansUndisturbed(h: Heap, h': Heap, q: nat)
    requires SharesOk(h) && HeapOk(h') && Keeps(h, h') && q in h.held && q in h.packets
    ensures Undisturbed(h, h', q)
  {
    ShareAt(h, q);
    ShareAt(h', q);
  }

  /** kill() by a handle's owner: that handle is gone, all others are untouched. */
  lemma KillOk(h: Heap, p: nat)
    requires HeapOk(h) && p in h.held && p in h.packets
    ensures HeapOk(Kill(h, p)) && Kill(h, p).held == h.held - {p}
    ensures forall q :: q in h.held && q != p ==> q in h.packets && Undisturbed(h, Kill(h, p), q)
    ensures h.log <= Kill(h, p).log && Kill(h, p).nextId == h.nextId && CountsFall(h, Kill(h, p))
  {
    hide SharesOk, BuffersOk, LogOk, Clones;
    var h0 := h.(held := h.held - {p});
    assert SharesOk(h0) by { SharesDepend(h, h0); }
    assert BuffersOk(h0) by { BuffersDepend(h, h0); }
    assert LogOk(h0) by { LogDepends(h, h0); }
    assert CountsOk(h0, Some(p)) by {
      forall q ensures Clones(h0, q) == Clones(h, q) { ClonesDepend(h, h0, q); }
    }
    DropOk(h0, p);
    forall q | q in h.held && q != p ensures q in h.packets && Undisturbed(h, Kill(h, p), q) {
      KeptMeansUndisturbed(h0, Kill(h, p), q);
    }
  }

  lemma SharesDepend(h: Heap, h': Heap)
    requires SharesOk(h) && h'.packets == h.packets && h'.mem == h.mem && h'.foreign == h.foreign
    ensures SharesOk(h')
  {
    forall q | q in h'.packets ensures ShareOk(h', q) { assert ShareOk(h, q); }
  }

  lemma BuffersDepend(h: Heap, h': Heap)
    requires BuffersOk(h) && h'.packets == h.packets && h'.mem == h.mem
    ensures BuffersOk(h')
  {
    assert forall q :: IsOrigin(h', q) <==> IsOrigin(h, q);
    forall b | b in h'.mem ensures HasOrigin(h', b) {
      assert HasOrigin(h, b);
      var o :| IsOrigin(h, o) && h.packets[o].buf == b;
      assert IsOrigin(h', o);
    }
  }

  lemma ClonesDepend(h: Heap, h': Heap, q: nat)
    requires h'.packets == h.packets
    ensures Clones(h', q) == Clones(h, q)
  {
  }

  /** A clone adds one reference to the origin and shares its bytes. */
  lemma CloneOk(h: Heap, p: nat)
    requires HeapOk(h) && p in h.packets
    ensures var h' := Clone(h, p); var c := h.nextId;
            && HeapOk(h') && h'.held == h.held + {c} && c !in h.packets && c !in h.held && c in h'.packets
            && p in h'.packets && SameButCount(h.packets[p], h'.packets[p])
            && h'.mem == h.mem && h'.packets[c].buf == h.packets[p].buf
            && h'.packets[c].headroom == h.packets[p].headroom && h'.packets[c].length == h.packets[p].length
            && h'.packets[c].useCount == 1 && h'.log == h.log
    ensures forall q :: q in h.held ==> q in h.packets && Undisturbed(h, Clone(h, p), q)
  {
    hide SharesOk, BuffersOk, LogOk, Clones, CountsOk;
    ShareAt(h, p);
    FreshNames(h);
    var h', c := Clone(h, p), h.nextId;
    var origin := if h.packets[p].dataPacket.Some? then h.packets[p].dataPacket.value else p;
    assert Cloned(h, h', origin, c);
    CloneShares(h, h', origin, c);
    CloneCounts(h, h', origin, c);
    CloneBuffers(h, h', origin, c);
    CloneLog(h, h', c);
    forall q | q in h.held ensures q in h.packets && Undisturbed(h, h', q) {
      HeldIsLive(h, q);
    }
  }

  lemma FreshNames(h: Heap)
    requires HeapOk(h)
    ensures h.nextId !in h.packets && h.nextId !in h.held && h.nextBuf !in h.mem && h.nextBuf !in h.foreign
  {
  }

  /** h' is h with packet c added as a clone of `origin`. */
  ghost predicate Cloned(h: Heap, h': Heap, origin: nat, c: nat) {
    && IsOrigin(h, origin) && c !in h.packets && c in h'.packets
    && h'.packets.Keys == h.packets.Keys + {c}
    && h'.packets[origin] == h.packets[origin].(useCount := h.packets[origin].useCount + 1)
    && (forall q :: q in h.packets && q != origin ==> h'.packets[q] == h.packets[q])
    && h'.packets[c].dataPacket == Some(origin) && h'.packets[c].buf == h.packets[origin].buf
    && h'.packets[c].useCount == 1 && !h'.packets[c].destructor
    && h'.held == h.held + {c} && h'.mem == h.mem && h'.foreign == h.foreign && h'.log == h.log
    && h'.nextBuf == h.nextBuf
  }

  lemma CloneShares(h: Heap, h': Heap, origin: nat, c: nat)
    requires SharesOk(h) && Cloned(h, h', origin, c)
    requires h'.packets[c].buf in h.mem && h'.packets[c].headroom + h'.packets[c].length <= |h.mem[h'.packets[c].buf]|
    ensures SharesOk(h')
  {
    forall q | q in h'.packets ensures ShareOk(h', q) {
      if q != c { assert ShareOk(h, q); }
    }
  }

  lemma CloneCounts(h: Heap, h': Heap, origin: nat, c: nat)
    requires SharesOk(h) && CountsOk(h, None) && Cloned(h, h', origin, c)
    ensures CountsOk(h', None)
  {
    hide Clones, SharesOk;
    forall q | q in h'.packets ensures h'.packets[q].useCount == References(h', None, q) > 0 {
      ClonedClones(h, h', origin, c, q);
    }
  }

  lemma ClonedClones(h: Heap, h': Heap, origin: nat, c: nat, q: nat)
    requires SharesOk(h) && Cloned(h, h', origin, c)
    ensures |Clones(h', q)| == if q == c then 0 else |Clones(h, q)| + if q == origin then 1 else 0
  {
    forall r | r in h.packets
      ensures h.packets[r].dataPacket != Some(c) && h'.packets[r].dataPacket == h.packets[r].dataPacket
    {
      assert ShareOk(h, r);
    }
    if q == origin {
      assert Clones(h', q) == Clones(h, q) + {c};
    } else if q == c {
      assert Clones(h', c) == {};
    } else {
      assert Clones(h', q) == Clones(h, q);
    }
  }

  lemma CloneBuffers(h: Heap, h': Heap, origin: nat, c: nat)
    requires BuffersOk(h) && Cloned(h, h', origin, c)
    ensures BuffersOk(h')
  {
    assert forall q :: IsOrigin(h', q) <==> IsOrigin(h, q);
    forall b | b in h'.mem ensures HasOrigin(h', b) {
      assert HasOrigin(h, b);
      var o :| IsOrigin(h, o) && h.packets[o].buf == b;
      assert IsOrigin(h', o);
    }
  }

  lemma CloneLog(h: Heap, h': Heap, c: nat)
    requires LogOk(h) && h'.log == h.log && h'.mem == h.mem && h'.foreign == h.foreign && h'.nextBuf == h.nextBuf
    requires c == h.nextId && h'.nextId == c + 1 && h'.packets.Keys == h.packets.Keys + {c}
    ensures LogOk(h')
  {
    assert forall b :: InLog(h', b) <==> InLog(h, b);
  }

  // ----- A buffer of one's own ----------------------------------------------

  /** h' is h where packet p is the origin of the new buffer b. */
  ghost predicate Moved(h: Heap, h': Heap, p: nat, b: nat) {
    && p in h.packets && b !in h.mem && b !in h.foreign && p in h'.packets
    && h'.packets == h.packets[p := h'.packets[p]]
    && h'.packets[p].dataPacket == None && h'.packets[p].buf == b && h'.packets[p].useCount == 1
    && !h'.packets[p].destructor && h'.held == h.held && h'.foreign == h.foreign
    && b in h'.mem && h'.packets[p].headroom + h'.packets[p].length <= |h'.mem[b]|
  }

  /** Packet p takes up the new buffer b; a buffer it owned before is gone. */
  lemma BuffersGain(h: Heap, h': Heap, p: nat, b: nat)
    requires SharesOk(h) && BuffersOk(h) && b !in h.mem && IsOrigin(h', p) && h'.packets[p].buf == b
    requires forall q :: q != p ==>
               (q in h'.packets <==> q in h.packets) && (q in h.packets ==> h'.packets[q] == h.packets[q])
    requires forall c :: c in h'.mem ==> c == b || (c in h.mem && (IsOrigin(h, p) ==> c != h.packets[p].buf))
    ensures BuffersOk(h')
  {
    forall c | c in h'.mem ensures HasOrigin(h', c) {
      if c != b {
        assert HasOrigin(h, c);
        var o :| IsOrigin(h, o) && h.packets[o].buf == c;
        assert IsOrigin(h', o);
      }
    }
    forall q, r | IsOrigin(h', q) && IsOrigin(h', r) && q != r ensures h'.packets[q].buf != h'.packets[r].buf {
      assert q != p ==> IsOrigin(h, q) && ShareOk(h, q);
      assert r != p ==> IsOrigin(h, r) && ShareOk(h, r);
    }
  }

  lemma MovedClones(h: Heap, h': Heap, p: nat, b: nat, q: nat)
    requires Moved(h, h', p, b)
    ensures |Clones(h', q)| == |Clones(h, q)| - if h.packets[p].dataPacket == Some(q) then 1 else 0
  {
    if h.packets[p].dataPacket == Some(q) {
      assert Clones(h', q) == Clones(h, q) - {p} && p in Clones(h, q);
    } else {
      assert Clones(h', q) == Clones(h, q);
    }
  }

  lemma MovedCounts(h: Heap, h': Heap, p: nat, b: nat)
    requires CountsOk(h, None) && Moved(h, h', p, b) && p in h.held && h.packets[p].useCount <= 1
    requires h.packets[p].dataPacket != Some(p)
    ensures CountsOk(h', h.packets[p].dataPacket) && Clones(h, p) == {}
  {
    var debt := h.packets[p].dataPacket;
    OnlyReference(h, p);
    hide Clones;
    forall q | q in h'.packets ensures References(h', debt, q) == References(h, None, q) {
      MovedClones(h, h', p, b, q);
    }
  }

  lemma OnlyReference(h: Heap, p: nat)
    requires CountsOk(h, None) && p in h.held && p in h.packets && h.packets[p].useCount <= 1
    ensures Clones(h, p) == {} && References(h, None, p) == 1
  {
    assert References(h, None, p) == h.packets[p].useCount;
  }

  /** A clone moves out: its origin loses one reference. */
  lemma MovedCloneOk(h: Heap, h': Heap, p: nat, b: nat)
    requires SharesOk(h) && BuffersOk(h) && Moved(h, h', p, b) && h.packets[p].dataPacket.Some?
    requires h'.mem == h.mem[b := h'.mem[b]] && Clones(h, p) == {}
    ensures SharesOk(h') && BuffersOk(h')
  {
    forall q | q in h'.packets ensures ShareOk(h', q) {
      if q != p {
        assert ShareOk(h, q);
        assert h.packets[q].dataPacket == Some(p) ==> q in Clones(h, p);
      }
    }
    BuffersGain(h, h', p, b);
  }

  /** An origin without clones moves out: its old buffer has no user left. */
  lemma MovedOriginOk(h: Heap, h': Heap, p: nat, b: nat)
    requires SharesOk(h) && BuffersOk(h) && Moved(h, h', p, b) && h.packets[p].dataPacket == None
    requires b != h.packets[p].buf
    requires h'.mem == h.mem[b := h'.mem[b]] - {h.packets[p].buf} && Clones(h, p) == {}
    ensures SharesOk(h') && BuffersOk(h')
  {
    forall q | q in h'.packets ensures ShareOk(h', q) {
      if q != p {
        assert ShareOk(h, q);
        var o := if h.packets[q].dataPacket == None then q else h.packets[q].dataPacket.value;
        assert o == p ==> q in Clones(h, p);
        assert IsOrigin(h, o);
      }
    }
    BuffersGain(h, h', p, b);
  }

  lemma NewBufferLog(h: Heap, h': Heap, b: nat)
    requires LogOk(h) && b == h.nextBuf && h'.nextBuf == b + 1 && h'.mem.Keys == h.mem.Keys + {b}
    requires h'.log == h.log && h'.nextId == h.nextId && h'.packets.Keys == h.packets.Keys
    requires h'.foreign == h.foreign || h'.foreign == h.foreign + {b}
    ensures LogOk(h')
  {
    assert forall c :: InLog(h', c) <==> InLog(h, c);
    assert forall i :: 0 <= i < |h.log| ==> InLog(h, h.log[i].buf);
  }

  lemma MoveOut(h: Heap, p: nat, extraHeadroom: int, extraTailroom: int, fill: Byte)
    requires HeapOk(h) && p in h.held && p in h.packets && h.packets[p].useCount <= 1
    requires RoomOk(h, p, extraHeadroom, extraTailroom)
    ensures var h1 := WithOwnBuffer(h, p, extraHeadroom, extraTailroom, fill);
            && Moved(h, h1, p, h.nextBuf) && LogOk(h1) && CountsOk(h1, h.packets[p].dataPacket)
            && Clones(h, p) == {} && h.packets[p].buf != h.nextBuf
  {
    hide SharesOk, BuffersOk, LogOk, CountsOk, Clones;
    var h1 := WithOwnBuffer(h, p, extraHeadroom, extraTailroom, fill);
    FreshNames(h);
    ShareAt(h, p);
    NewBufferLog(h, h1, h.nextBuf);
    MovedCounts(h, h1, p, h.nextBuf);
  }

  /** expensive_uniqueify's core: p gets private data, nobody else notices. */
  lemma RebufferOk(h: Heap, p: nat, extraHeadroom: int, extraTailroom: int, fill: Byte)
    requires HeapOk(h) && p in h.held && p in h.packets && h.packets[p].useCount <= 1
    requires RoomOk(h, p, extraHeadroom, extraTailroom)
    ensures var h' := Rebuffer(h, p, extraHeadroom, extraTailroom, fill);
            && HeapOk(h') && h'.held == h.held && p in h'.packets && h.log <= h'.log && h'.nextId == h.nextId
            && h'.packets[p].useCount <= 1
            && SameButCount(WithOwnBuffer(h, p, extraHeadroom, extraTailroom, fill).packets[p], h'.packets[p])
            && h.nextBuf in h'.mem
            && h'.mem[h.nextBuf] == Resized(h.mem[h.packets[p].buf], extraHeadroom, extraTailroom, fill)
    ensures forall q :: q in h.held && q != p ==>
              q in h.packets && Undisturbed(h, Rebuffer(h, p, extraHeadroom, extraTailroom, fill), q)
  {
    hide SharesOk, BuffersOk, LogOk, CountsOk, Clones, Resized, RoomOk;
    if h.packets[p].dataPacket == None {
      RebufferOrigin(h, p, extraHeadroom, extraTailroom, fill);
    } else {
      RebufferClone(h, p, extraHeadroom, extraTailroom, fill);
    }
  }

  lemma RebufferOrigin(h: Heap, p: nat, eh: int, et: int, fill: Byte)
    requires HeapOk(h) && p in h.held && RoomOk(h, p, eh, et) && h.packets[p].useCount <= 1
    requires h.packets[p].dataPacket == None
    ensures var h1 := WithOwnBuffer(h, p, eh, et, fill);
            var h' := Release(h1, h.packets[p].buf, h.packets[p].destructor);
            && HeapOk(h') && h.nextBuf in h'.mem && h'.mem[h.nextBuf] == h1.mem[h.nextBuf]
            && forall q :: q in h.held && q != p ==> q in h.packets && Undisturbed(h, h', q)
  {
    hide SharesOk, BuffersOk, LogOk, CountsOk, Clones, Resized;
    var k, h1 := h.packets[p], WithOwnBuffer(h, p, eh, et, fill);
    var h' := Release(h1, k.buf, k.destructor);
    MoveOut(h, p, eh, et, fill);
    ShareAt(h, p);
    MovedOriginOk(h, h', p, h.nextBuf);
    LogRelease(h1, h', k.buf, k.destructor);
    CountsDepend(h1, h', None);
    forall q | q in h.held && q != p ensures q in h.packets && Undisturbed(h, h', q) {
      HeldIsLive(h, q);
      OtherBuffer(h, p, q);
      FreshNames(h);
    }
  }

  lemma RebufferClone(h: Heap, p: nat, eh: int, et: int, fill: Byte)
    requires HeapOk(h) && p in h.held && RoomOk(h, p, eh, et) && h.packets[p].useCount <= 1
    requires h.packets[p].dataPacket.Some?
    ensures var h1 := WithOwnBuffer(h, p, eh, et, fill); var h' := Drop(h1, h.packets[p].dataPacket.value);
            && HeapOk(h') && Keeps(h1, h') && Undisturbed(h1, h', p)
            && forall q :: q in h.held && q != p ==> q in h.packets && Undisturbed(h, h', q)
  {
    hide SharesOk, BuffersOk, LogOk, CountsOk, Clones, Resized, Drop;
    var k, h1 := h.packets[p], WithOwnBuffer(h, p, eh, et, fill);
    var o := k.dataPacket.value;
    MoveOut(h, p, eh, et, fill);
    ShareAt(h, p);
    MovedCloneOk(h, h1, p, h.nextBuf);
    DropOk(h1, o);
    var h' := Drop(h1, o);
    forall q | q in h.held && q != p ensures q in h.packets && Undisturbed(h, h', q) {
      HeldIsLive(h, q);
      FreshNames(h);
      KeptMeansUndisturbed(h1, h', q);
    }
    KeptMeansUndisturbed(h1, h', p);
  }

  lemma CountsDepend(h: Heap, h': Heap, debt: Option<nat>)
    requires CountsOk(h, debt) && h'.packets == h.packets && h'.held == h.held
    ensures CountsOk(h', debt)
  {
    forall q ensures Clones(h', q) == Clones(h, q) {}
  }

  /** Nobody shares the buffer of an unshared origin. */
  lemma OtherBuffer(h: Heap, p: nat, q: nat)
    requires HeapOk(h) && p in h.packets && h.packets[p].useCount <= 1 && p in h.held
    requires h.packets[p].dataPacket == None && q in h.packets && q != p
    ensures h.packets[q].buf != h.packets[p].buf
  {
    assert References(h, None, p) == 1;
    assert ShareOk(h, q) && IsOrigin(h, p);
    var o := if h.packets[q].dataPacket == None then q else h.packets[q].dataPacket.value;
    assert o == p ==> q in Clones(h, p);
    assert IsOrigin(h, o);
  }

  /** Every byte that is not cut off keeps its distance from the data; the data
      window is the same. */
  lemma ResizedWindow(was: seq<Byte>, eh: int, et: int, fill: Byte, headroom: nat, length: nat)
    requires headroom + length <= |was| && headroom + eh >= 0 && |was| - headroom - length + et >= 0
    ensures headroom + eh + length <= |Resized(was, eh, et, fill)|
    ensures Resized(was, eh, et, fill)[headroom + eh..headroom + eh + length] == was[headroom..headroom + length]
    ensures forall i :: 0 <= i < |was| && 0 <= i + eh && i < |was| + et ==>
              i + eh < |Resized(was, eh, et, fill)| && Resized(was, eh, et, fill)[i + eh] == was[i]
  {
    var r := Resized(was, eh, et, fill);
    forall j | headroom <= j < headroom + length ensures r[j + eh] == was[j] {}
  }

  // ----- Uniqueify ----------------------------------------------------------

  ghost predicate DataOk(h: Heap, p: nat) {
    && p in h.packets && h.packets[p].buf in h.mem
    && h.packets[p].headroom + h.packets[p].length <= |h.mem[h.packets[p].buf]|
  }

  /** Packet::shared(). */
  predicate Shared(h: Heap, p: nat)
    requires p in h.packets
  {
    h.packets[p].dataPacket.Some? || h.packets[p].useCount > 1
  }

  /** The result is an unshared packet with the same bytes and the requested extra
      room; the input handle is consumed, except that on failure it survives when
      freeOnFailure is off; no other packet is disturbed. */
  ghost predicate Uniqueified(h: Heap, p: nat, eh: int, et: int, freeOnFailure: bool, h': Heap, r: Option<nat>)
    requires RoomOk(h, p, eh, et)
  {
    && HeapOk(h') && h.log <= h'.log
    && (forall q :: q in h.held && q != p ==> q in h.packets && Undisturbed(h, h', q))
    && match r
       case None =>
         && h'.held == (if freeOnFailure then h.held - {p} else h.held)
         && (!freeOnFailure ==> Undisturbed(h, h', p))
       case Some(q) =>
         && h'.held == h.held - {p} + {q} && (q == p || q !in h.packets)
         && DataOk(h, p) && DataOk(h', q) && !Shared(h', q) && Data(h', q) == Data(h, p)
         && h'.packets[q].headroom == h.packets[p].headroom + eh
         && |h'.mem[h'.packets[q].buf]| == BufferSize(|h.mem[h.packets[p].buf]| + eh + et)
  }

  lemma OwnBufferData(h: Heap, h': Heap, p: nat, eh: int, et: int, fill: Byte)
    requires p in h.packets && RoomOk(h, p, eh, et) && HeapOk(h')
    requires p in h'.packets && h'.packets[p].useCount <= 1 && h.nextBuf in h'.mem
    requires SameButCount(WithOwnBuffer(h, p, eh, et, fill).packets[p], h'.packets[p])
    requires h'.mem[h.nextBuf] == Resized(h.mem[h.packets[p].buf], eh, et, fill)
    ensures DataOk(h, p) && DataOk(h', p) && !Shared(h', p) && Data(h', p) == Data(h, p)
    ensures h'.packets[p].headroom == h.packets[p].headroom + eh
    ensures |h'.mem[h'.packets[p].buf]| == BufferSize(|h.mem[h.packets[p].buf]| + eh + et)
  {
    var k := h.packets[p];
    ResizedWindow(h.mem[k.buf], eh, et, fill, k.headroom, k.length);
  }

  lemma UniqueifyAlone(h: Heap, p: nat, eh: int, et: int, freeOnFailure: bool, memory: Memory, fill: Byte)
    requires HeapOk(h) && p in h.held && p in h.packets && RoomOk(h, p, eh, et) && h.packets[p].useCount <= 1
    ensures var (h', r) := ExpensiveUniqueify(h, p, eh, et, freeOnFailure, memory, fill);
            Uniqueified(h, p, eh, et, freeOnFailure, h', r)
  {
    hide HeapOk, Resized, Rebuffer, Kill;
    if memory.bufferOk {
      RebufferOk(h, p, eh, et, fill);
      OwnBufferData(h, Rebuffer(h, p, eh, et, fill), p, eh, et, fill);
    } else if freeOnFailure {
      KillOk(h, p);
    } else {
      forall q | q in h.held ensures q in h.packets && Undisturbed(h, h, q) { HeldIsLive(h, q); }
    }
  }

  lemma UndisturbedTrans(h: Heap, h1: Heap, h2: Heap, q: nat)
    requires q in h.packets && Undisturbed(h, h1, q) && Undisturbed(h1, h2, q)
    ensures Undisturbed(h, h2, q)
  {
  }

  lemma SameData(h: Heap, h': Heap, q: nat)
    requires q in h.packets && Undisturbed(h, h', q) && DataOk(h, q)
    ensures DataOk(h', q) && Data(h', q) == Data(h, q)
  {
  }

  /** Shared, and the copy succeeds: clone, rebuffer the clone, drop the input. */
  lemma UniqueifyCopy(h: Heap, p: nat, eh: int, et: int, freeOnFailure: bool, fill: Byte)
    requires HeapOk(h) && p in h.held && p in h.packets && RoomOk(h, p, eh, et) && h.packets[p].useCount > 1
    ensures var (h', r) := ExpensiveUniqueify(h, p, eh, et, freeOnFailure, Memory(true, true), fill);
            Uniqueified(h, p, eh, et, freeOnFailure, h', r)
  {
    hide HeapOk, Resized, Clone, Rebuffer, Kill, Drop;
    var h1, c := Clone(h, p), h.nextId;
    CloneOk(h, p);
    RebufferOk(h1, c, eh, et, fill);
    var h2 := Rebuffer(h1, c, eh, et, fill);
    OwnBufferData(h1, h2, c, eh, et, fill);
    KillOk(h2, p);
    var h3 := Kill(h2, p);
    SameData(h2, h3, c);
    forall q | q in h.held && q != p ensures q in h.packets && Undisturbed(h, h3, q) {
      UndisturbedTrans(h, h1, h2, q);
      UndisturbedTrans(h, h2, h3, q);
    }
  }

  /** Shared, and there is memory for the clone but not for its data. */
  lemma UniqueifyNoBuffer(h: Heap, p: nat, eh: int, et: int, freeOnFailure: bool, fill: Byte)
    requires HeapOk(h) && p in h.held && p in h.packets && RoomOk(h, p, eh, et) && h.packets[p].useCount > 1
    ensures var (h', r) := ExpensiveUniqueify(h, p, eh, et, freeOnFailure, Memory(true, false), fill);
            Uniqueified(h, p, eh, et, freeOnFailure, h', r)
  {
    hide HeapOk, Resized, Clone, Rebuffer, Kill, Drop;
    var h1, c := Clone(h, p), h.nextId;
    CloneOk(h, p);
    KillOk(h1, c);
    var h2 := Kill(h1, c);
    forall q | q in h.held ensures q in h.packets && Undisturbed(h, h2, q) { UndisturbedTrans(h, h1, h2, q); }
    if freeOnFailure {
      KillOk(h2, p);
      var h3 := Kill(h2, p);
      forall q | q in h.held && q != p ensures q in h.packets && Undisturbed(h, h3, q) {
        UndisturbedTrans(h, h2, h3, q);
      }
    }
  }

  /** Packet::expensive_uniqueify, under any allocation outcome. */
  lemma UniqueifyOk(h: Heap, p: nat, eh: int, et: int, freeOnFailure: bool, memory: Memory, fill: Byte)
    requires HeapOk(h) && p in h.held && p in h.packets && RoomOk(h, p, eh, et)
    ensures var (h', r) := ExpensiveUniqueify(h, p, eh, et, freeOnFailure, memory, fill);
            && Uniqueified(h, p, eh, et, freeOnFailure, h', r)
            && (r == None <==> Fails(memory, h.packets[p].useCount))
  {
    hide HeapOk, Uniqueified, Kill, Clone, Rebuffer;
    if h.packets[p].useCount <= 1 {
      UniqueifyAlone(h, p, eh, et, freeOnFailure, memory, fill);
    } else if memory.objectOk && memory.bufferOk {
      UniqueifyCopy(h, p, eh, et, freeOnFailure, fill);
    } else if memory.objectOk {
      UniqueifyNoBuffer(h, p, eh, et, freeOnFailure, fill);
    } else {
      UniqueifyNoObject(h, p, eh, et, freeOnFailure, memory, fill);
    }
  }

  lemma UniqueifyNoObject(h: Heap, p: nat, eh: int, et: int, freeOnFailure: bool, memory: Memory, fill: Byte)
    requires HeapOk(h) && p in h.held && p in h.packets && RoomOk(h, p, eh, et) && h.packets[p].useCount > 1
    requires !memory.objectOk
    ensures var (h', r) := ExpensiveUniqueify(h, p, eh, et, freeOnFailure, memory, fill);
            Uniqueified(h, p, eh, et, freeOnFailure, h', r)
  {
    hide HeapOk, Kill;
    if freeOnFailure {
      KillOk(h, p);
    } else {
      forall q | q in h.held ensures q in h.packets && Undisturbed(h, h, q) { HeldIsLive(h, q); }
    }
  }

  // ----- Making packets -----------------------------------------------------

  lemma MakeOk(h: Heap, buffer: seq<Byte>, headroom: nat, length: nat, foreign: bool)
    requires HeapOk(h) && headroom + length <= |buffer|
    ensures var h' := Make(h, buffer, headroom, length, foreign); var p := h.nextId;
            && HeapOk(h') && h'.held == h.held + {p} && p !in h.held && h'.log == h.log
            && DataOk(h', p) && !Shared(h', p) && Data(h', p) == buffer[headroom..headroom + length]
            && forall q :: q in h.held ==> q in h.packets && Undisturbed(h, h', q)
  {
    hide SharesOk, BuffersOk, LogOk, CountsOk, Clones;
    var h', p, b := Make(h, buffer, headroom, length, foreign), h.nextId, h.nextBuf;
    FreshNames(h);
    MakeShares(h, h', p, b);
    MakeCounts(h, h', p);
    MakeLog(h, h', p, b);
    forall q | q in h.held ensures q in h.packets && Undisturbed(h, h', q) { HeldIsLive(h, q); }
  }

  lemma MakeShares(h: Heap, h': Heap, p: nat, b: nat)
    requires SharesOk(h) && BuffersOk(h) && p !in h.packets && b !in h.mem && b !in h.foreign
    requires p in h'.packets && h'.packets == h.packets[p := h'.packets[p]] && h'.packets[p].dataPacket == None
    requires b in h'.mem && h'.mem == h.mem[b := h'.mem[b]] && h'.packets[p].buf == b
    requires h'.packets[p].headroom + h'.packets[p].length <= |h'.mem[b]|
    requires h'.foreign == if h'.packets[p].destructor then h.foreign + {b} else h.foreign
    ensures SharesOk(h') && BuffersOk(h')
  {
    forall q | q in h'.packets ensures ShareOk(h', q) {
      if q != p { assert ShareOk(h, q); }
    }
    BuffersGain(h, h', p, b);
  }

  lemma MakeCounts(h: Heap, h': Heap, p: nat)
    requires SharesOk(h) && CountsOk(h, None) && p !in h.packets
    requires p in h'.packets && h'.packets == h.packets[p := h'.packets[p]] && h'.held == h.held + {p}
    requires h'.packets[p].dataPacket == None && h'.packets[p].useCount == 1
    ensures CountsOk(h', None)
  {
    forall q | q in h.packets ensures h.packets[q].dataPacket != Some(p) { assert ShareOk(h, q); }
    forall q | q in h'.packets ensures Clones(h', q) == Clones(h, q) {}
    assert Clones(h, p) == {};
  }

  lemma MakeLog(h: Heap, h': Heap, p: nat, b: nat)
    requires LogOk(h) && h'.log == h.log && p == h.nextId && h'.nextId == p + 1 && b == h.nextBuf && h'.nextBuf == b + 1
    requires h'.packets.Keys == h.packets.Keys + {p} && h'.mem.Keys == h.mem.Keys + {b}
    requires h'.foreign == h.foreign || h'.foreign == h.foreign + {b}
    ensures LogOk(h')
  {
    var h1 := h'.(packets := h.packets, nextId := h.nextId);
    NewBufferLog(h, h1, b);
    assert forall c :: InLog(h', c) <==> InLog(h1, c);
  }

  // ----- Whole runs ---------------------------------------------------------

  /** One call by user code, with the allocator's answers. */
  datatype Op =
    | MakeOp(buffer: seq<Byte>, headroom: nat, length: nat, foreign: bool, memoryOk: bool)
    | CloneOp(p: nat, memoryOk: bool)
    | KillOp(p: nat)
    | UniqueifyOp(p: nat, extraHeadroom: int, extraTailroom: int, freeOnFailure: bool, memory: Memory, fill: Byte)

  /** User code only uses packets it holds. */
  ghost predicate Enabled(h: Heap, op: Op) {
    match op
    case MakeOp(buffer, headroom, length, _, _) => headroom + length <= |buffer|
    case CloneOp(p, _) => p in h.held
    case KillOp(p) => p in h.held
    case UniqueifyOp(p, eh, et, _, _, _) => p in h.held && RoomOk(h, p, eh, et)
  }

  function Step(h: Heap, op: Op): Heap {
    match op
    case MakeOp(buffer, headroom, length, foreign, ok) => if ok then Make(h, buffer, headroom, length, foreign) else h
    case CloneOp(p, ok) => if ok then Clone(h, p) else h
    case KillOp(p) => Kill(h, p)
    case UniqueifyOp(p, eh, et, free, memory, fill) => ExpensiveUniqueify(h, p, eh, et, free, memory, fill).0
  }

  function Run(ops: seq<Op>): Heap {
    if ops == [] then EMPTY else Step(Run(ops[..|ops| - 1]), ops[|ops| - 1])
  }

  /** Every call of the run was allowed when it was made. */
  ghost predicate Legal(ops: seq<Op>) {
    ops == [] || (Legal(ops[..|ops| - 1]) && Enabled(Run(ops[..|ops| - 1]), ops[|ops| - 1]))
  }

  lemma StepOk(h: Heap, op: Op)
    requires HeapOk(h) && Enabled(h, op)
    ensures HeapOk(Step(h, op)) && h.log <= Step(h, op).log
  {
    hide HeapOk, Clone, Make, Kill, ExpensiveUniqueify, RoomOk;
    match op {
      case MakeOp(buffer, headroom, length, foreign, ok) =>
        if ok { MakeOk(h, buffer, headroom, length, foreign); }
      case CloneOp(p, ok) =>
        HeldIsLive(h, p);
        if ok { CloneOk(h, p); }
      case KillOp(p) =>
        HeldIsLive(h, p);
        KillOk(h, p);
      case UniqueifyOp(p, eh, et, free, memory, fill) =>
        HeldIsLive(h, p);
        UniqueifyOk(h, p, eh, et, free, memory, fill);
    }
  }

  lemma {:induction false} RunOk(ops: seq<Op>)
    requires Legal(ops)
    ensures HeapOk(Run(ops))
  {
    if ops == [] {
      assert forall b :: !InLog(EMPTY, b);
    } else {
      RunOk(ops[..|ops| - 1]);
      StepOk(Run(ops[..|ops| - 1]), ops[|ops| - 1]);
    }
  }

  /** A buffer is live exactly as long as some held packet points into it. */
  lemma LiveIffHeld(h: Heap, b: nat)
    requires HeapOk(h)
    ensures b in h.mem <==> exists q :: q in h.held && q in h.packets && h.packets[q].buf == b
  {
    if b in h.mem {
      assert HasOrigin(h, b);
      var p :| IsOrigin(h, p) && h.packets[p].buf == b;
      assert References(h, None, p) > 0;
      if p !in h.held {
        var q :| q in Clones(h, p);
        assert ShareOk(h, q) && References(h, None, q) > 0;
        CloneIsHeld(h, q);
      }
    }
    if q :| q in h.held && q in h.packets && h.packets[q].buf == b {
      assert ShareOk(h, q);
    }
  }

  lemma CloneIsHeld(h: Heap, q: nat)
    requires HeapOk(h) && q in h.packets && h.packets[q].dataPacket.Some?
    ensures q in h.held && h.packets[q].useCount == 1
  {
    forall r | r in h.packets ensures h.packets[r].dataPacket != Some(q) { assert ShareOk(h, r); }
    assert Clones(h, q) == {};
    assert References(h, None, q) == h.packets[q].useCount;
  }

  ghost function Releases(log: seq<Freed>, b: nat): nat {
    if log == [] then 0 else Releases(log[..|log| - 1], b) + if log[|log| - 1].buf == b then 1 else 0
  }

  lemma {:induction false} ReleasesAtMostOnce(log: seq<Freed>, b: nat)
    requires forall i, j :: 0 <= i < j < |log| ==> log[i].buf != log[j].buf
    ensures Releases(log, b) == if exists i :: 0 <= i < |log| && log[i].buf == b then 1 else 0
  {
    if log != [] {
      var n := |log| - 1;
      ReleasesAtMostOnce(log[..n], b);
      if i :| 0 <= i < |log| && log[i].buf == b {
        assert i < n ==> log[..n][i].buf == b;
        assert forall j :: 0 <= j < n ==> log[..n][j] == log[j];
      }
    }
  }

  /** After any legal run, each buffer that was ever made has been released once
      if no held packet points into it, and not at all otherwise; data origins are
      never clones; and a use count is the handle plus the clones. */
  lemma RunReleasesOnce(ops: seq<Op>, b: nat)
    requires Legal(ops) && b < Run(ops).nextBuf
    ensures var h := Run(ops);
            Releases(h.log, b) == if exists q :: q in h.held && q in h.packets && h.packets[q].buf == b then 0 else 1
  {
    var h := Run(ops);
    RunOk(ops);
    LiveIffHeld(h, b);
    ReleasesAtMostOnce(h.log, b);
    assert b in h.mem <==> !InLog(h, b);
  }

  lemma RunCounts(ops: seq<Op>, p: nat)
    requires Legal(ops) && p in Run(ops).packets
    ensures var h := Run(ops); var k := h.packets[p];
            && k.useCount == (if p in h.held then 1 else 0) + |Clones(h, p)|
            && (k.dataPacket.Some? ==>
                  && k.useCount == 1 && k.dataPacket.value in h.packets
                  && h.packets[k.dataPacket.value].dataPacket == None
                  && h.packets[k.dataPacket.value].buf == k.buf)
  {
    var h := Run(ops);
    RunOk(ops);
    ShareAt(h, p);
    assert References(h, None, p) == h.packets[p].useCount;
    if h.packets[p].dataPacket.Some? { CloneIsHeld(h, p); }
  }

  // ----- The objects, changed in place --------------------------------------

  class PacketMemory {
    var packets: map<nat, Packet>
    var mem: map<nat, seq<Byte>>
    var nextId: nat
    var nextBuf: nat
    ghost var held: set<nat>
    ghost var foreign: set<nat>
    ghost var log: seq<Freed>

    ghost function Now(): Heap
      reads this
    {
      Heap(packets, held, mem, foreign, log, nextId, nextBuf)
    }

    constructor ()
      ensures Now() == EMPTY
    {
      packets, mem, nextId, nextBuf := map[], map[], 0, 0;
      held, foreign, log := {}, {}, [];
    }

    /** delete[] or the destructor function. */
    method FreeBuffer(buf: nat, byDestructor: bool)
      modifies this`mem, this`log
      ensures Now() == Release(old(Now()), buf, byDestructor)
    {
      mem := mem - {buf};
      log := log + [Freed(buf, byDestructor)];
    }

    /** Packet::kill: one reference less; the destructor at zero. */
    method KillReference(p: nat)
      requires p in packets
      modifies this`packets, this`mem, this`log
      ensures Now() == Drop(old(Now()), p)
      decreases |packets|
    {
      var k := packets[p];
      if k.useCount > 1 {
        packets := packets[p := k.(useCount := k.useCount - 1)];
        return;
      }
      packets := packets - {p};
      assert packets.Keys == old(packets).Keys - {p};
      match k.dataPacket {
        case None => FreeBuffer(k.buf, k.destructor);
        case Some(o) => if o in packets { KillReference(o); }
      }
    }

    method KillPacket(p: nat)
      requires p in packets
      modifies this
      ensures Now() == Kill(old(Now()), p)
    {
      held := held - {p};
      KillReference(p);
    }

    method ClonePacket(p: nat, objectOk: bool) returns (c: Option<nat>)
      requires HeapOk(Now()) && p in packets
      modifies this
      ensures if objectOk then c == Some(old(nextId)) && Now() == Clone(old(Now()), p)
              else c == None && Now() == old(Now())
    {
      hide HeapOk;
      if !objectOk { return None; }
      OriginOf(Now(), p);
      var origin := if packets[p].dataPacket.Some? then packets[p].dataPacket.value else p;
      var id := nextId;
      packets := packets[id := packets[p].(useCount := 1, dataPacket := Some(origin), destructor := false)];
      packets := packets[origin := packets[origin].(useCount := packets[origin].useCount + 1)];
      held, nextId := held + {id}, nextId + 1;
      c := Some(id);
    }

    /** The part of expensive_uniqueify for a packet nobody has cloned. */
    method CopyData(p: nat, extraHeadroom: int, extraTailroom: int, fill: Byte)
      requires RoomOk(Now(), p, extraHeadroom, extraTailroom)
      modifies this
      ensures Now() == Rebuffer(old(Now()), p, extraHeadroom, extraTailroom, fill)
    {
      var k, b := packets[p], nextBuf;
      mem := mem[b := Resized(mem[k.buf], extraHeadroom, extraTailroom, fill)];
      nextBuf := b + 1;
      packets := packets[p := Packet(1, None, b, k.headroom + extraHeadroom, k.length, false)];
      match k.dataPacket {
        case None => FreeBuffer(k.buf, k.destructor);
        case Some(o) => if o in packets { KillReference(o); }
      }
    }

    /** Packet::expensive_uniqueify, recursion and failure paths included. */
    method Uniqueify(p: nat, extraHeadroom: int, extraTailroom: int, freeOnFailure: bool, memory: Memory, fill: Byte)
      returns (q: Option<nat>)
      requires HeapOk(Now()) && p in held && RoomOk(Now(), p, extraHeadroom, extraTailroom)
      modifies this
      ensures (Now(), q) == ExpensiveUniqueify(old(Now()), p, extraHeadroom, extraTailroom, freeOnFailure, memory, fill)
      ensures Uniqueified(old(Now()), p, extraHeadroom, extraTailroom, freeOnFailure, Now(), q)
      ensures q == None <==> Fails(memory, old(packets[p].useCount))
      decreases packets[p].useCount > 1
    {
      UniqueifyOk(Now(), p, extraHeadroom, extraTailroom, freeOnFailure, memory, fill);
      hide HeapOk, Uniqueified, RoomOk, Resized;
      HeldIsLive(Now(), p);
      if packets[p].useCount > 1 {
        CloneOk(Now(), p);
        ghost var h := Now();
        var c := ClonePacket(p, memory.objectOk);
        if c.Some? {
          CloneHasRoom(h, Now(), p, c.value, extraHeadroom, extraTailroom);
          q := Uniqueify(c.value, extraHeadroom, extraTailroom, true, memory, fill);
        } else {
          q := None;
        }
        if q.Some? || freeOnFailure { KillInput(p); }
      } else if !memory.bufferOk {
        q := None;
        if freeOnFailure { KillInput(p); }
      } else {
        CopyData(p, extraHeadroom, extraTailroom, fill);
        q := Some(p);
      }
    }

    method KillInput(p: nat)
      requires HeapOk(Now()) && p in held
      modifies this
      ensures Now() == Kill(old(Now()), p)
    {
      HeldIsLive(Now(), p);
      KillPacket(p);
    }

    /** Packet::expensive_push: room for nbytes in front of the same data. */
    method ExpensivePush(p: nat, nbytes: nat, memory: Memory, fill: Byte) returns (q: Option<nat>)
      requires HeapOk(Now()) && p in held && DataOk(Now(), p)
      modifies this
      ensures HeapOk(Now()) && (q == None <==> Fails(memory, old(packets[p].useCount)))
      ensures held == old(held) - {p} + (if q.Some? then {q.value} else {})
      ensures forall r :: r in old(held) && r != p ==> r in old(packets) && Undisturbed(old(Now()), Now(), r)
      ensures q.Some? ==> Private(Now(), q.value)
      ensures q.Some? ==> Prepended(Data(Now(), q.value), nbytes, old(Data(Now(), p)))
      ensures q.Some? ==>
                var gained := packets[q.value].headroom + nbytes - old(packets[p].headroom);
                gained % 4 == 0 && nbytes + 124 < gained <= nbytes + 128
    {
      hide HeapOk, Resized;
      var extra := (nbytes + 128) / 4 * 4;
      ghost var h := Now();
      q := Uniqueify(p, extra, 0, true, memory, fill);
      if q.Some? {
        var k := packets[q.value];
        WindowOk(Now(), q.value, k.headroom - nbytes, k.length + nbytes);
        packets := packets[q.value := k.(headroom := k.headroom - nbytes, length := k.length + nbytes)];
      }
    }

    /** Packet::expensive_put: room for nbytes behind the same data. */
    method ExpensivePut(p: nat, nbytes: nat, memory: Memory, fill: Byte) returns (q: Option<nat>)
      requires HeapOk(Now()) && p in held && DataOk(Now(), p)
      modifies this
      ensures HeapOk(Now()) && (q == None <==> Fails(memory, old(packets[p].useCount)))
      ensures held == old(held) - {p} + (if q.Some? then {q.value} else {})
      ensures forall r :: r in old(held) && r != p ==> r in old(packets) && Undisturbed(old(Now()), Now(), r)
      ensures q.Some? ==> Private(Now(), q.value)
      ensures q.Some? ==> Appended(Data(Now(), q.value), nbytes, old(Data(Now(), p)))
      ensures q.Some? ==>
                && packets[q.value].headroom == old(packets[p].headroom)
                && |mem[packets[q.value].buf]| >= |old(mem[packets[p].buf])| + nbytes + 128
    {
      hide HeapOk, Resized;
      ghost var h := Now();
      q := Uniqueify(p, 0, nbytes + 128, true, memory, fill);
      if q.Some? {
        var k := packets[q.value];
        WindowOk(Now(), q.value, k.headroom, k.length + nbytes);
        packets := packets[q.value := k.(length := k.length + nbytes)];
      }
    }
  }

  /** When expensive_uniqueify runs out of memory: no buffer, or no packet object
      for a packet that has clones. */
  predicate Fails(memory: Memory, useCount: int) {
    !memory.bufferOk || (!memory.objectOk && useCount > 1)
  }

  lemma CloneHasRoom(h: Heap, h1: Heap, p: nat, c: nat, eh: int, et: int)
    requires RoomOk(h, p, eh, et) && c in h1.packets && h1.mem == h.mem && h1.packets[c].buf == h.packets[p].buf
    requires h1.packets[c].headroom == h.packets[p].headroom && h1.packets[c].length == h.packets[p].length
    ensures RoomOk(h1, c, eh, et)
  {
  }

  /** Moving the data window inside the buffer. */
  lemma WindowOk(h: Heap, p: nat, headroom: nat, length: nat)
    requires HeapOk(h) && p in h.packets && h.packets[p].buf in h.mem && headroom + length <= |h.mem[h.packets[p].buf]|
    ensures HeapOk(h.(packets := h.packets[p := h.packets[p].(headroom := headroom, length := length)]))
  {
    var h' := h.(packets := h.packets[p := h.packets[p].(headroom := headroom, length := length)]);
    WindowShares(h, h', p);
    WindowBuffers(h, h', p);
    WindowCounts(h, h', p);
    LogDepends(h, h');
    hide *;
  }

  ghost predicate WindowMoved(h: Heap, h': Heap, p: nat) {
    && p in h.packets && p in h'.packets
    && var k := h'.packets[p];
       h' == h.(packets := h.packets[p := h.packets[p].(headroom := k.headroom, length := k.length)])
  }

  lemma WindowShares(h: Heap, h': Heap, p: nat)
    requires SharesOk(h) && WindowMoved(h, h', p) && h'.packets[p].buf in h.mem
    requires h'.packets[p].headroom + h'.packets[p].length <= |h.mem[h'.packets[p].buf]|
    ensures SharesOk(h')
  {
    forall q | q in h'.packets ensures ShareOk(h', q) { assert ShareOk(h, q); }
  }

  lemma WindowBuffers(h: Heap, h': Heap, p: nat)
    requires BuffersOk(h) && WindowMoved(h, h', p)
    ensures BuffersOk(h')
  {
    assert forall q :: IsOrigin(h', q) <==> IsOrigin(h, q);
    assert forall q :: q in h.packets ==> h'.packets[q].buf == h.packets[q].buf;
    forall b | b in h'.mem ensures HasOrigin(h', b) {
      assert HasOrigin(h, b);
      var o :| IsOrigin(h, o) && h.packets[o].buf == b;
      assert IsOrigin(h', o);
    }
  }

  lemma WindowCounts(h: Heap, h': Heap, p: nat)
    requires CountsOk(h, None) && WindowMoved(h, h', p)
    ensures CountsOk(h', None)
  {
    forall q ensures Clones(h', q) == Clones(h, q) {
      assert forall r :: r in h.packets ==> h'.packets[r].dataPacket == h.packets[r].dataPacket;
    }
  }

  lemma OriginOf(h: Heap, p: nat)
    requires HeapOk(h) && p in h.packets
    ensures h.nextId !in h.packets
    ensures h.packets[p].dataPacket.Some? ==> h.packets[p].dataPacket.value in h.packets
  {
    ShareAt(h, p);
    FreshNames(h);
  }

  ghost predicate Private(h: Heap, p: nat) { DataOk(h, p) && !Shared(h, p) }

  ghost predicate Prepended(now: seq<Byte>, n: nat, before: seq<Byte>) {
    |now| == n + |before| && now[n..] == before
  }

  ghost predicate Appended(now: seq<Byte>, n: nat, before: seq<Byte>) {
    |now| == |before| + n && now[..|before|] == before
  }
}
