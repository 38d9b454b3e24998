/** pool_allocate (lib/packet.cc) from call to return, among any steps of other
    threads: where the packet and its buffer come from, and that nothing else goes
    out or is deleted.
 */
module PacketAllocs {
  import opened Wrappers
  import opened PacketPool
  import opened PacketRuns

  predicate Allocating(pc: PC) {
    pc != Idle && !Recycling(pc)
  }

  /** Object x comes to a place. */
  ghost predicate Puts(p: Pool, p': Pool, x: nat, place: Place) {
    At(p', x, place) && !At(p, x, place)
  }

  /** Some step of thread t brings x to that place. */
  ghost predicate PutBy(m: Machine, ls: seq<Label>, t: nat, buffers: bool, x: nat, place: Place)
    decreases |ls|
  {
    && ls != [] && Enabled(m, ls[0])
    && (var m' := Next(m, ls[0]);
        || (ls[0].t == t && Puts(PoolOf(m, buffers), PoolOf(m', buffers), x, place))
        || PutBy(m', ls[1..], t, buffers, x, place))
  }

  /** A packet p, perhaps with a buffer b; no packet; or a packet p that was given back
      because there was no buffer for it. */
  datatype Outcome = Served(p: nat, b: Option<nat>) | NoPacket | NoBuffer(p: nat)

  /** What thread t's steps make live, and what they delete: the outcome, and nothing
      else. */
  ghost predicate Effects(m: Machine, ls: seq<Label>, t: nat, o: Outcome) {
    && (forall x: nat :: PutBy(m, ls, t, false, x, Live) <==> o.Served? && o.p == x)
    && (forall x: nat :: PutBy(m, ls, t, true, x, Live) <==> o.Served? && o.b == Some(x))
    && (forall x: nat :: PutBy(m, ls, t, false, x, Deleted) <==> o.NoBuffer? && o.p == x)
    && (forall x: nat :: !PutBy(m, ls, t, true, x, Deleted))
  }

  function Popped(l: Local): Local
    requires l.list != []
  {
    Local(l.list[1..], l.count - 1)
  }

  /** The packet is the first of list l, or new if there is none. */
  ghost predicate PacketEnd(m: Machine, t: nat, o: Outcome, l: Local, fin: Machine)
    requires Known(m, t) && Known(fin, t)
  {
    if m.pc[t].AllocData? then !o.NoPacket? && o.p == m.pc[t].p && fin.pk.locals[t] == m.pk.locals[t]
    else if l.list != [] then !o.NoPacket? && o.p == l.list[0] && fin.pk.locals[t] == Popped(l)
    else fin.pk.locals[t] == l && (o.NoPacket? || o.p !in m.pk.owner)
  }

  /** The buffer is the first of list b, or new if there is none. */
  ghost predicate BufferEnd(m: Machine, t: nat, wd: bool, o: Outcome, b: Local, fin: Machine)
    requires Known(m, t) && Known(fin, t)
  {
    if o.NoPacket? then fin.bf.locals[t] == b
    else if !wd then o.Served? && o.b == None && fin.bf.locals[t] == b
    else if b.list != [] then o.Served? && o.b == Some(b.list[0]) && fin.bf.locals[t] == Popped(b)
    else fin.bf.locals[t] == b && (o.NoBuffer? || (o.Served? && o.b.Some? && o.b.value !in m.bf.owner))
  }

  /** Which list that is: the thread's own, or, if that is empty, the batch in front
      of the global pool. */
  ghost predicate Stolen(m: Machine, ls: seq<Label>, buffers: bool, mine: Local, l: Local) {
    && (mine.list != [] ==> l == mine)
    && (mine.list == [] ==>
          || (l == mine && Sometime(m, ls, buffers, Bare))
          || Sometime(m, ls, buffers, Offers(Batch(l.list, l.count))))
  }

  ghost predicate PacketSource(m: Machine, ls: seq<Label>, t: nat, l: Local)
    requires Known(m, t)
  {
    var pc, mine := m.pc[t], m.pk.locals[t];
    if pc.AllocLock? || pc.AllocP? then Stolen(m, ls, false, mine, l)
    else if pc.AllocP2? || pc.AllocP3? then
      (m.pk.mid.Unlinked? || m.pk.mid.Counted?) && l == Local(m.pk.mid.b.items, m.pk.mid.b.count)
    else pc.AllocData? || l == mine
  }

  ghost predicate BufferSource(m: Machine, ls: seq<Label>, t: nat, wd: bool, b: Local)
    requires Known(m, t)
  {
    var pc, mine := m.pc[t], m.bf.locals[t];
    if pc.AllocD2? || pc.AllocD3? then
      (m.bf.mid.Unlinked? || m.bf.mid.Counted?) && b == Local(m.bf.mid.b.items, m.bf.mid.b.count)
    else if !wd || pc.AllocUnlock? || pc.AllocTake? || pc.AllocData? then b == mine
    else Stolen(m, ls, true, mine, b)
  }

  // ----- Quiet steps --------------------------------------------------------------

  /** Nothing becomes live or deleted. */
  ghost predicate Quiet(p: Pool, p': Pool) {
    forall x: nat :: !Puts(p, p', x, Live) && !Puts(p, p', x, Deleted)
  }

  lemma QuietOps(p: Pool, t: nat, x: nat)
    requires t in p.locals
    ensures Quiet(p, p) && Quiet(p, New(p, t, x))
    ensures p.batches != [] ==> Quiet(p, Unlink(p, t))
    ensures p.mid.Unlinked? ==> Quiet(p, CountDown(p))
    ensures p.mid.Counted? ==> Quiet(p, Install(p))
    ensures p.locals[t].list != [] ==> Quiet(p, Take(p, t))
  {
  }

  /** Every step of an allocation but the last is quiet. */
  lemma QuietStep(m: Machine, t: nat, x: nat, ok: bool)
    requires MachineOk(m) && Enabled(m, Advance(t, x, ok)) && Allocating(m.pc[t])
    requires !m.pc[t].AllocData?
    ensures var m' := Next(m, Advance(t, x, ok)); Quiet(m.pk, m'.pk) && Quiet(m.bf, m'.bf)
  {
    hide MachineOk, Unlink, CountDown, Install, Take, New, Quiet;
    QuietOps(m.pk, t, x);
    QuietOps(m.bf, t, x);
  }

  lemma PutLater(m: Machine, ls: seq<Label>, t: nat, buffers: bool, x: nat, place: Place)
    requires ls != [] && Enabled(m, ls[0]) && (place == Live || place == Deleted)
    requires ls[0].t != t || (Quiet(m.pk, Next(m, ls[0]).pk) && Quiet(m.bf, Next(m, ls[0]).bf))
    ensures PutBy(m, ls, t, buffers, x, place) <==> PutBy(Next(m, ls[0]), ls[1..], t, buffers, x, place)
  {
    hide Next, Enabled, Puts;
    var m' := Next(m, ls[0]);
    assert ls[0].t == t ==> !Puts(PoolOf(m, buffers), PoolOf(m', buffers), x, place);
  }

  lemma EffectsLater(m: Machine, ls: seq<Label>, t: nat, o: Outcome)
    requires ls != [] && Enabled(m, ls[0]) && Effects(Next(m, ls[0]), ls[1..], t, o)
    requires ls[0].t != t || (Quiet(m.pk, Next(m, ls[0]).pk) && Quiet(m.bf, Next(m, ls[0]).bf))
    ensures Effects(m, ls, t, o)
  {
    hide Next, Enabled, Quiet, PutBy;
    forall x: nat, buffers: bool
      ensures PutBy(m, ls, t, buffers, x, Live) <==> PutBy(Next(m, ls[0]), ls[1..], t, buffers, x, Live)
      ensures PutBy(m, ls, t, buffers, x, Deleted) <==> PutBy(Next(m, ls[0]), ls[1..], t, buffers, x, Deleted)
    {
      PutLater(m, ls, t, buffers, x, Live);
      PutLater(m, ls, t, buffers, x, Deleted);
    }
  }

  // ----- The last step --------------------------------------------------------------

  lemma CarryPuts(p: Pool, x: nat, to: Place, t: nat)
    requires At(p, x, InFlight(t)) && (to == Live || to == Deleted)
    ensures forall y: nat, place | place == Live || place == Deleted ::
              Puts(p, Carry(p, x, to), y, place) <==> place == to && y == x
  {
  }

  lemma TakePuts(p: Pool, t: nat)
    requires PoolOk(p) && t in p.locals && p.locals[t].list != []
    ensures var b := p.locals[t].list[0];
            && (forall y: nat, place | place == Live || place == Deleted ::
                  Puts(p, Carry(Take(p, t), b, Live), y, place) <==> place == Live && y == b)
            && Carry(Take(p, t), b, Live).locals == p.locals[t := Popped(p.locals[t])]
  {
    hide PoolOk;
    HeadAt(p, t);
  }

  lemma NewPuts(p: Pool, t: nat, x: nat)
    requires x !in p.owner
    ensures forall y: nat, place | place == Live || place == Deleted ::
              Puts(p, Carry(New(p, t, x), x, Live), y, place) <==> place == Live && y == x
    ensures Carry(New(p, t, x), x, Live).locals == p.locals
  {
  }

  lemma PutByOne(m: Machine, l: Label, t: nat, buffers: bool, x: nat, place: Place)
    requires Enabled(m, l) && l.t == t
    ensures PutBy(m, [l], t, buffers, x, place) <==> Puts(PoolOf(m, buffers), PoolOf(Next(m, l), buffers), x, place)
  {
    hide Next, Puts;
    assert [l][1..] == [];
  }

  /** Exactly these objects change to Live or Deleted. */
  ghost predicate StepPuts(m: Machine, m': Machine, o: Outcome) {
    forall x: nat, place | place == Live || place == Deleted ::
      && (Puts(m.pk, m'.pk, x, place) <==>
            (place == Live && o.Served? && o.p == x) || (place == Deleted && o.NoBuffer? && o.p == x))
      && (Puts(m.bf, m'.bf, x, place) <==> place == Live && o.Served? && o.b == Some(x))
  }

  lemma EffectsLast(m: Machine, l: Label, t: nat, o: Outcome)
    requires Enabled(m, l) && l.t == t && StepPuts(m, Next(m, l), o)
    ensures Effects(m, [l], t, o)
  {
    hide Next, Puts, PutBy, Enabled;
    var m' := Next(m, l);
    forall x: nat
      ensures PutBy(m, [l], t, false, x, Live) <==> Puts(m.pk, m'.pk, x, Live)
      ensures PutBy(m, [l], t, false, x, Deleted) <==> Puts(m.pk, m'.pk, x, Deleted)
      ensures PutBy(m, [l], t, true, x, Live) <==> Puts(m.bf, m'.bf, x, Live)
      ensures PutBy(m, [l], t, true, x, Deleted) <==> Puts(m.bf, m'.bf, x, Deleted)
    {
      PutByOne(m, l, t, false, x, Live);
      PutByOne(m, l, t, false, x, Deleted);
      PutByOne(m, l, t, true, x, Live);
      PutByOne(m, l, t, true, x, Deleted);
    }
  }

  /** The system had no packet. */
  lemma LastRefused(m: Machine, t: nat, x: nat, ok: bool)
    requires MachineOk(m) && Enabled(m, Advance(t, x, ok)) && m.pc[t].AllocTake?
    requires m.pk.locals[t].list == [] && !ok
    ensures Finished(m, Advance(t, x, ok), t, NoPacket, m.pk.locals[t], m.bf.locals[t])
  {
    hide MachineOk;
  }

  /** What holds of the last step. */
  ghost predicate Finished(m: Machine, l: Label, t: nat, o: Outcome, pl: Local, b: Local) {
    && Enabled(m, l) && l.Advance? && l.t == t && Known(m, t) && Known(Next(m, l), t) && Allocating(m.pc[t])
    && StepPuts(m, Next(m, l), o) && Next(m, l).pc[t] == Idle
    && PacketEnd(m, t, o, pl, Next(m, l)) && BufferEnd(m, t, m.pc[t].wd, o, b, Next(m, l))
    && (!o.Served? ==> !l.ok)
  }

  lemma LastServed(m: Machine, t: nat, x: nat, ok: bool) returns (o: Outcome)
    requires MachineOk(m) && Enabled(m, Advance(t, x, ok)) && m.pc[t].AllocData?
    ensures Finished(m, Advance(t, x, ok), t, o, m.pk.locals[t], m.bf.locals[t])
  {
    hide MachineOk, PoolOk, Take, New, Carry, Puts, At;
    Mover(m, t);
    var p, wd, list := m.pc[t].p, m.pc[t].wd, m.bf.locals[t].list;
    CarryPuts(m.pk, p, Live, t);
    CarryPuts(m.pk, p, Deleted, t);
    CarryLocals(m.pk, p, Live);
    CarryLocals(m.pk, p, Deleted);
    NewPuts(m.bf, t, x);
    NothingPuts(m.bf);
    if list != [] { TakePuts(m.bf, t); }
    o := if !wd then Served(p, None) else if list != [] then Served(p, Some(list[0]))
         else if ok then Served(p, Some(x)) else NoBuffer(p);
  }

  lemma NothingPuts(p: Pool)
    ensures forall y: nat, place :: !Puts(p, p, y, place)
  {
  }

  // ----- The steps before it ---------------------------------------------------------

  ghost predicate Grows(p: Pool, p': Pool) {
    forall x :: x in p.owner ==> x in p'.owner
  }

  lemma GrowAlloc(p: Pool, t: nat, x: nat)
    requires t in p.locals
    ensures Grows(p, p) && Grows(p, New(p, t, x)) && Grows(p, Carry(New(p, t, x), x, Live))
    ensures p.batches != [] ==> Grows(p, Unlink(p, t))
    ensures p.mid.Unlinked? ==> Grows(p, CountDown(p))
    ensures p.mid.Counted? ==> Grows(p, Install(p))
    ensures p.locals[t].list != [] ==> Grows(p, Take(p, t)) && Grows(p, Carry(Take(p, t), p.locals[t].list[0], Live))
  {
  }

  lemma GrowRecycle(p: Pool, t: nat, y: nat)
    requires t in p.locals
    ensures Grows(p, p) && Grows(p, Publish(p, t)) && Grows(p, Push(p, t, y))
    ensures p.mid.Published? && p.mid.t in p.locals ==> Grows(p, CountUp(p))
    ensures p.mid == Deleting(t) ==> Grows(p, EndDelete(p))
    ensures p.locals[t].list != [] ==> Grows(p, DeleteOne(p, t))
  {
  }

  lemma CarryGrows(p: Pool, y: nat, to: Place)
    ensures Grows(p, Carry(p, y, to))
  {
  }

  lemma AllocGrows(m: Machine, t: nat, x: nat, ok: bool)
    requires Enabled(m, Advance(t, x, ok)) && Allocating(m.pc[t])
    ensures var m' := Next(m, Advance(t, x, ok)); Grows(m.pk, m'.pk) && Grows(m.bf, m'.bf)
  {
    hide Unlink, CountDown, Install, Take, New, Carry, Grows;
    GrowAlloc(m.pk, t, x);
    GrowAlloc(m.bf, t, x);
    if m.pc[t].AllocData? {
      CarryGrows(m.pk, m.pc[t].p, Live);
      CarryGrows(m.pk, m.pc[t].p, Deleted);
    }
  }

  lemma RecycleGrows(m: Machine, t: nat, x: nat, ok: bool)
    requires Enabled(m, Advance(t, x, ok)) && Recycling(m.pc[t])
    ensures var m' := Next(m, Advance(t, x, ok)); Grows(m.pk, m'.pk) && Grows(m.bf, m'.bf)
  {
    hide Publish, CountUp, DeleteOne, EndDelete, Push, Full, Grows;
    GrowRecycle(m.pk, t, m.pc[t].p);
    GrowRecycle(m.bf, t, if m.pc[t].d.Some? then m.pc[t].d.value else 0);
  }

  lemma NextGrows(m: Machine, l: Label)
    requires Enabled(m, l)
    ensures Grows(m.pk, Next(m, l).pk) && Grows(m.bf, Next(m, l).bf)
  {
    hide Carry, Grows, Full, Starved, Join;
    match l {
      case Enter(t) => JoinGrows(m.pk, t); JoinGrows(m.bf, t);
      case StartAlloc(t, wd) => GrowAlloc(m.pk, t, 0); GrowAlloc(m.bf, t, 0);
      case StartRecycle(t, p, d) =>
        GrowAlloc(m.bf, t, 0);
        CarryGrows(m.pk, p, InFlight(t));
        if d.Some? { CarryGrows(m.bf, d.value, InFlight(t)); }
      case Advance(t, x, ok) => if Recycling(m.pc[t]) { RecycleGrows(m, t, x, ok); } else { AllocGrows(m, t, x, ok); }
    }
  }

  lemma JoinGrows(p: Pool, t: nat)
    ensures Grows(p, Join(p, t))
  {
  }

  /** While t holds the lock, others leave what the pools have under way. */
  lemma OtherMids(m: Machine, l: Label, t: nat)
    requires MachineOk(m) && Enabled(m, l) && Known(m, t) && l.t != t && Holding(m.pc[t])
    ensures Next(m, l).pk.mid == m.pk.mid && Next(m, l).bf.mid == m.bf.mid
  {
    hide PoolOk, At, Starved, Full, Move, Unlink, CountDown, Install, Publish, CountUp, DeleteOne, EndDelete;
    assert ThreadOk(m, t);
    if l.Advance? { assert ThreadOk(m, l.t); }
  }

  /** The pool under way, and the list in hand, after a step of t before it takes its packet. */
  lemma OwnPacketStep(m: Machine, t: nat, x: nat, ok: bool)
    requires MachineOk(m) && Enabled(m, Advance(t, x, ok)) && Allocating(m.pc[t])
    requires !m.pc[t].AllocTake? && !m.pc[t].AllocData?
    ensures var pc, m' := m.pc[t], Next(m, Advance(t, x, ok));
            var pc' := PcOf(m', t);
            && t in m'.pk.locals && Allocating(pc') && pc'.wd == pc.wd && !pc'.AllocData?
            && (pc.AllocLock? ==> (pc'.AllocLock? || pc'.AllocP?) && m'.pk == m.pk)
            && (pc.AllocP? ==> if Starved(m.pk, t) then pc'.AllocP2? && m'.pk.mid == Unlinked(t, m.pk.batches[0])
                               else pc'.AllocD? && m'.pk == m.pk)
            && (pc.AllocP2? ==> pc'.AllocP3? && m.pk.mid.Unlinked? && m'.pk.mid == Counted(t, m.pk.mid.b))
            && (pc.AllocP3? ==> pc'.AllocD? && m.pk.mid.Counted?
                                && m'.pk.locals[t] == Local(m.pk.mid.b.items, m.pk.mid.b.count))
            && (!(pc.AllocLock? || pc.AllocP? || pc.AllocP2? || pc.AllocP3?) ==>
                  m'.pk == m.pk && !(pc'.AllocLock? || pc'.AllocP? || pc'.AllocP2? || pc'.AllocP3?))
  {
    hide MachineOk, Move;
    MidMine(m, t);
  }

  lemma OwnBufferStep(m: Machine, t: nat, x: nat, ok: bool)
    requires MachineOk(m) && Enabled(m, Advance(t, x, ok)) && Allocating(m.pc[t])
    requires !m.pc[t].AllocTake? && !m.pc[t].AllocData?
    ensures var pc, m' := m.pc[t], Next(m, Advance(t, x, ok));
            var pc' := PcOf(m', t);
            && t in m'.bf.locals
            && (pc.AllocD? ==>
                  if pc.wd && Starved(m.bf, t) then pc'.AllocD2? && m'.bf.mid == Unlinked(t, m.bf.batches[0])
                  else pc'.AllocUnlock? && m'.bf == m.bf)
            && (pc.AllocD2? ==> pc'.AllocD3? && m.bf.mid.Unlinked? && m'.bf.mid == Counted(t, m.bf.mid.b)
                                && m'.bf.locals == m.bf.locals)
            && (pc.AllocD3? ==> pc'.AllocUnlock? && m.bf.mid.Counted?
                                && m'.bf.locals[t] == Local(m.bf.mid.b.items, m.bf.mid.b.count))
            && (pc.AllocUnlock? ==> pc'.AllocTake? && m'.bf == m.bf)
            && (!(pc.AllocD? || pc.AllocD2? || pc.AllocD3? || pc.AllocUnlock?) ==>
                  m'.bf == m.bf && !(pc'.AllocD2? || pc'.AllocD3? || pc'.AllocUnlock? || pc'.AllocTake?))
  {
    hide MachineOk, Move;
    MidMine(m, t);
  }

  // ----- From any step to the end ------------------------------------------------------

  lemma StolenLater(m: Machine, ls: seq<Label>, buffers: bool, mine: Local, l: Local)
    requires ls != [] && Enabled(m, ls[0]) && Stolen(Next(m, ls[0]), ls[1..], buffers, mine, l)
    ensures Stolen(m, ls, buffers, mine, l)
  {
    hide Next, Enabled, Happens;
  }

  /** The lists are found, and the outcome is known. */
  ghost predicate Explained(m: Machine, ls: seq<Label>, t: nat, wd: bool, o: Outcome, l: Local, b: Local) {
    var fin := Final(m, ls);
    && Known(m, t) && Known(fin, t) && Effects(m, ls, t, o)
    && PacketSource(m, ls, t, l) && BufferSource(m, ls, t, wd, b)
    && PacketEnd(m, t, o, l, fin) && BufferEnd(m, t, wd, o, b, fin)
    && ls != [] && ls[|ls| - 1].Advance? && ls[|ls| - 1].t == t && (!o.Served? ==> !ls[|ls| - 1].ok)
  }

  lemma OtherExplained(m: Machine, ls: seq<Label>, t: nat, wd: bool, o: Outcome, l: Local, b: Local)
    requires MachineOk(m) && ls != [] && Enabled(m, ls[0]) && ls[0].t != t && Known(m, t) && Allocating(m.pc[t])
    requires Explained(Next(m, ls[0]), ls[1..], t, wd, o, l, b)
    ensures Explained(m, ls, t, wd, o, l, b)
  {
    hide MachineOk, Next, Effects, Stolen, Enabled;
    var m' := Next(m, ls[0]);
    assert Final(m, ls) == Final(m', ls[1..]);
    OtherStep(m, ls[0], t);
    NextGrows(m, ls[0]);
    EffectsLater(m, ls, t, o);
    if Holding(m.pc[t]) { OtherMids(m, ls[0], t); }
    OtherSource(m, ls, t, l, b);
    assert ls[|ls| - 1] == ls[1..][|ls| - 2];
  }

  lemma OtherSource(m: Machine, ls: seq<Label>, t: nat, l: Local, b: Local)
    requires ls != [] && Enabled(m, ls[0]) && Known(m, t)
    ensures forall mine :: Stolen(Next(m, ls[0]), ls[1..], false, mine, l) ==> Stolen(m, ls, false, mine, l)
    ensures forall mine :: Stolen(Next(m, ls[0]), ls[1..], true, mine, b) ==> Stolen(m, ls, true, mine, b)
  {
    hide Stolen, Next, Enabled;
    forall mine | Stolen(Next(m, ls[0]), ls[1..], false, mine, l) ensures Stolen(m, ls, false, mine, l) {
      StolenLater(m, ls, false, mine, l);
    }
    forall mine | Stolen(Next(m, ls[0]), ls[1..], true, mine, b) ensures Stolen(m, ls, true, mine, b) {
      StolenLater(m, ls, true, mine, b);
    }
  }

  lemma StolenNow(m: Machine, ls: seq<Label>, buffers: bool, t: nat, l: Local)
    requires t in PoolOf(m, buffers).locals
    requires var p := PoolOf(m, buffers);
             if Starved(p, t) then l == Local(p.batches[0].items, p.batches[0].count) else l == p.locals[t]
    ensures Stolen(m, ls, buffers, PoolOf(m, buffers).locals[t], l)
  {
    var p := PoolOf(m, buffers);
    if Starved(p, t) {
      assert Happens(p, Offers(Batch(l.list, l.count)));
    } else if p.locals[t].list == [] {
      assert Happens(p, Bare);
    }
  }

  lemma OwnPacketSource(m: Machine, ls: seq<Label>, t: nat, l: Local)
    requires MachineOk(m) && ls != [] && ls[0].Advance? && ls[0].t == t && Enabled(m, ls[0])
    requires Allocating(m.pc[t]) && !m.pc[t].AllocTake? && !m.pc[t].AllocData?
    requires Known(Next(m, ls[0]), t) && PacketSource(Next(m, ls[0]), ls[1..], t, l)
    ensures PacketSource(m, ls, t, l)
  {
    hide MachineOk, Next, Stolen, Sometime;
    OwnPacketStep(m, t, ls[0].x, ls[0].ok);
    OtherSource(m, ls, t, l, l);
    if m.pc[t].AllocP? { StolenNow(m, ls, false, t, l); }
  }

  lemma OwnBufferSource(m: Machine, ls: seq<Label>, t: nat, b: Local)
    requires MachineOk(m) && ls != [] && ls[0].Advance? && ls[0].t == t && Enabled(m, ls[0])
    requires Allocating(m.pc[t]) && !m.pc[t].AllocTake? && !m.pc[t].AllocData?
    requires Known(Next(m, ls[0]), t) && BufferSource(Next(m, ls[0]), ls[1..], t, m.pc[t].wd, b)
    ensures BufferSource(m, ls, t, m.pc[t].wd, b)
  {
    hide MachineOk, Next, Stolen, Sometime;
    OwnPacketStep(m, t, ls[0].x, ls[0].ok);
    OwnBufferStep(m, t, ls[0].x, ls[0].ok);
    OtherSource(m, ls, t, b, b);
    if m.pc[t].AllocD? && m.pc[t].wd { StolenNow(m, ls, true, t, b); }
  }

  lemma OwnExplained(m: Machine, ls: seq<Label>, t: nat, wd: bool, o: Outcome, l: Local, b: Local)
    requires MachineOk(m) && ls != [] && ls[0].Advance? && ls[0].t == t && Enabled(m, ls[0])
    requires Allocating(m.pc[t]) && m.pc[t].wd == wd && !m.pc[t].AllocTake? && !m.pc[t].AllocData?
    requires Explained(Next(m, ls[0]), ls[1..], t, wd, o, l, b)
    ensures Explained(m, ls, t, wd, o, l, b)
  {
    hide MachineOk, Next, Effects, PacketSource, BufferSource;
    var m' := Next(m, ls[0]);
    assert Final(m, ls) == Final(m', ls[1..]);
    OwnPacketStep(m, t, ls[0].x, ls[0].ok);
    NextGrows(m, ls[0]);
    QuietStep(m, t, ls[0].x, ls[0].ok);
    EffectsLater(m, ls, t, o);
    OwnPacketSource(m, ls, t, l);
    OwnBufferSource(m, ls, t, b);
    assert ls[|ls| - 1] == ls[1..][|ls| - 2];
  }

  /** The packet has been taken; the buffer comes next. */
  lemma TakeExplained(m: Machine, ls: seq<Label>, t: nat, wd: bool, o: Outcome, l: Local, b: Local)
    requires MachineOk(m) && ls != [] && ls[0].Advance? && ls[0].t == t && Enabled(m, ls[0])
    requires m.pc[t] == AllocTake(wd) && (m.pk.locals[t].list != [] || ls[0].ok)
    requires Explained(Next(m, ls[0]), ls[1..], t, wd, o, l, b)
    ensures Explained(m, ls, t, wd, o, m.pk.locals[t], b)
  {
    hide MachineOk, Effects, Move;
    var m' := Next(m, ls[0]);
    assert Final(m, ls) == Final(m', ls[1..]);
    NextGrows(m, ls[0]);
    QuietStep(m, t, ls[0].x, ls[0].ok);
    EffectsLater(m, ls, t, o);
    assert ls[|ls| - 1] == ls[1..][|ls| - 2];
  }

  lemma LastExplained(m: Machine, k: Label, t: nat, wd: bool, o: Outcome)
    requires Known(m, t) && Finished(m, k, t, o, m.pk.locals[t], m.bf.locals[t]) && m.pc[t].wd == wd
    requires m.pc[t].AllocTake? || m.pc[t].AllocData?
    ensures Explained(m, [k], t, wd, o, m.pk.locals[t], m.bf.locals[t])
  {
    hide Next, Effects, PacketEnd, BufferEnd, StepPuts;
    assert [k][1..] == [] && Final(m, [k]) == Next(m, k);
    EffectsLast(m, k, t, o);
  }

  lemma BusyEnds(m: Machine, t: nat, ls: seq<Label>)
    requires Busy(m, t, ls) && PcOf(m, t) == Idle
    ensures ls == []
  {
  }

  lemma {:induction false} AllocFrom(m: Machine, t: nat, wd: bool, ls: seq<Label>)
    returns (o: Outcome, l: Local, b: Local)
    requires MachineOk(m) && Known(m, t) && Allocating(m.pc[t]) && m.pc[t].wd == wd
    requires Busy(m, t, ls) && PcOf(Final(m, ls), t) == Idle
    ensures Explained(m, ls, t, wd, o, l, b)
    decreases |ls|
  {
    hide MachineOk, Next, Enabled, Explained, Finished;
    var k, m' := ls[0], Next(m, ls[0]);
    NextOk(m, k);
    if k.t != t {
      OtherStep(m, k, t);
      o, l, b := AllocFrom(m', t, wd, ls[1..]);
      OtherExplained(m, ls, t, wd, o, l, b);
    } else {
      OwnLabel(m, k);
      if m.pc[t].AllocData? || (m.pc[t].AllocTake? && m.pk.locals[t].list == [] && !k.ok) {
        o := NoPacket;
        l, b := m.pk.locals[t], m.bf.locals[t];
        if m.pc[t].AllocData? { o := LastServed(m, t, k.x, k.ok); } else { LastRefused(m, t, k.x, k.ok); }
        FinishedIdle(m, k, t, o);
        BusyEnds(m', t, ls[1..]);
        assert ls == [k];
        LastExplained(m, k, t, wd, o);
      } else {
        OwnGoesOn(m, t, k.x, k.ok);
        o, l, b := AllocFrom(m', t, wd, ls[1..]);
        if m.pc[t].AllocTake? {
          TakeExplained(m, ls, t, wd, o, l, b);
          l := m.pk.locals[t];
        } else {
          OwnExplained(m, ls, t, wd, o, l, b);
        }
      }
    }
  }

  lemma FinishedIdle(m: Machine, k: Label, t: nat, o: Outcome)
    requires Known(m, t) && Finished(m, k, t, o, m.pk.locals[t], m.bf.locals[t])
    ensures PcOf(Next(m, k), t) == Idle
  {
  }

  lemma OwnGoesOn(m: Machine, t: nat, x: nat, ok: bool)
    requires MachineOk(m) && Enabled(m, Advance(t, x, ok)) && Allocating(m.pc[t]) && !m.pc[t].AllocData?
    requires m.pc[t].AllocTake? ==> m.pk.locals[t].list != [] || ok
    ensures var m' := Next(m, Advance(t, x, ok)); Known(m', t) && Allocating(m'.pc[t]) && m'.pc[t].wd == m.pc[t].wd
  {
    hide MachineOk, Move, Starved;
    if m.pc[t].AllocTake? {
      assert t in Next(m, Advance(t, x, ok)).pc;
    } else {
      OwnPacketStep(m, t, x, ok);
      OwnBufferStep(m, t, x, ok);
      PcFramed(m, Advance(t, x, ok));
    }
  }

  /** pool_allocate, from call to return, among any steps of other threads.  One packet
      goes out, with one buffer if one is wanted; nothing else becomes live.  They come
      off the thread's own lists, or off the batch in front of the global pool when
      those are empty, or are new when that is bare.  Only a refusal by the system ends
      without a packet, and only one of a buffer deletes anything: the packet. */
  lemma AllocRun(m: Machine, t: nat, wd: bool, ls: seq<Label>) returns (o: Outcome, l: Local, b: Local)
    requires MachineOk(m) && Enabled(m, StartAlloc(t, wd))
    requires var m1 := Next(m, StartAlloc(t, wd)); Busy(m1, t, ls) && PcOf(Final(m1, ls), t) == Idle
    ensures var m1 := Next(m, StartAlloc(t, wd));
            var fin := Final(m1, ls);
            && Known(fin, t) && Effects(m1, ls, t, o)
            && Stolen(m1, ls, false, m.pk.locals[t], l)
            && (if wd then Stolen(m1, ls, true, m.bf.locals[t], b) else b == m.bf.locals[t])
            && PacketEnd(m, t, o, l, fin) && BufferEnd(m, t, wd, o, b, fin)
            && ls != [] && ls[|ls| - 1].Advance? && ls[|ls| - 1].t == t && (!o.Served? ==> !ls[|ls| - 1].ok)
  {
    hide MachineOk, Effects, Stolen, Sometime;
    var m1 := Next(m, StartAlloc(t, wd));
    NextOk(m, StartAlloc(t, wd));
    o, l, b := AllocFrom(m1, t, wd, ls);
    if m1.pc[t].AllocTake? {
      StolenNow(m1, ls, false, t, l);
      if wd { StolenNow(m1, ls, true, t, b); }
    }
  }
}
