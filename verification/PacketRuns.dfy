/** Whole operations on the packet pools (lib/packet.cc): what pool_allocate and
    recycle achieve from their first step to their last, whatever other threads do
    in between, and that no object is ever lost.
 */
module PacketRuns {
  import opened Wrappers
  import opened PacketPool

  // ----- Objects in hand --------------------------------------------------------

  /** The packet that a thread at `pc` carries in its registers. */
  function PacketHeld(pc: PC): Option<nat> {
    if pc.AllocData? then Some(pc.p) else if Recycling(pc) then Some(pc.p) else None
  }

  function BufferHeld(pc: PC): Option<nat> {
    if Recycling(pc) then pc.d else None
  }

  /** Thread t has h in hand and nothing else. */
  ghost predicate Hands(p: Pool, t: nat, h: Option<nat>) {
    forall y: nat :: At(p, y, InFlight(t)) <==> h == Some(y)
  }

  function PcOf(m: Machine, t: nat): PC { if t in m.pc then m.pc[t] else Idle }

  /** Exactly the objects in some thread's registers are in flight. */
  ghost predicate HandsOk(m: Machine) {
    forall t: nat :: Hands(m.pk, t, PacketHeld(PcOf(m, t))) && Hands(m.bf, t, BufferHeld(PcOf(m, t)))
  }

  /** Thread t's hands now hold h; other hands are as before. */
  ghost predicate Shift(p: Pool, p': Pool, t: nat, h: Option<nat>) {
    && Hands(p', t, h)
    && forall u, y :: u != t ==> (At(p', y, InFlight(u)) <==> At(p, y, InFlight(u)))
  }

  lemma ShiftNone(p: Pool, p': Pool, t: nat, h: Option<nat>)
    requires p'.owner == p.owner && Hands(p, t, h)
    ensures Shift(p, p', t, h)
  {
    forall u: nat, y: nat ensures At(p', y, InFlight(u)) <==> At(p, y, InFlight(u)) {}
  }

  lemma ShiftMove(p: Pool, p': Pool, s: seq<nat>, from: Place, to: Place, t: nat, h: Option<nat>)
    requires p'.owner == Move(p, s, to) && AllAt(p, s, from) && !from.InFlight? && !to.InFlight? && Hands(p, t, h)
    ensures Shift(p, p', t, h)
  {
    forall u: nat, y: nat ensures At(p', y, InFlight(u)) <==> At(p, y, InFlight(u)) {
      if y in s {
        var i :| 0 <= i < |s| && s[i] == y;
        assert At(p, s[i], from);
      }
    }
  }

  /** One object comes into t's empty hands. */
  lemma ShiftIn(p: Pool, p': Pool, t: nat, x: nat)
    requires p'.owner == p.owner[x := InFlight(t)] && Hands(p, t, None)
    requires x in p.owner ==> !p.owner[x].InFlight?
    ensures Shift(p, p', t, Some(x))
  {
    forall y: nat ensures At(p', y, InFlight(t)) <==> Some(x) == Some(y) {
      assert y != x ==> (At(p', y, InFlight(t)) <==> At(p, y, InFlight(t)));
    }
  }

  /** The object in t's hands goes elsewhere. */
  lemma ShiftOut(p: Pool, p': Pool, t: nat, x: nat, to: Place)
    requires p'.owner == p.owner[x := to] && Hands(p, t, Some(x)) && !to.InFlight?
    ensures Shift(p, p', t, None)
  {
    assert At(p, x, InFlight(t));
    forall y: nat ensures !At(p', y, InFlight(t)) {
      assert y != x ==> (At(p', y, InFlight(t)) <==> At(p, y, InFlight(t)));
    }
  }

  lemma MoveOne(p: Pool, x: nat, to: Place)
    requires x in p.owner
    ensures Move(p, [x], to) == p.owner[x := to]
  {
  }

  lemma ShiftUnlink(p: Pool, t: nat, h: Option<nat>)
    requires PoolOk(p) && p.batches != [] && Hands(p, t, h)
    ensures Shift(p, Unlink(p, t), t, h)
  {
    assert BatchOk(p, p.batches[0], InGlobal);
    ShiftMove(p, Unlink(p, t), p.batches[0].items, InGlobal, InMid, t, h);
  }

  lemma ShiftInstall(p: Pool, t: nat, h: Option<nat>)
    requires PoolOk(p) && p.mid.Counted? && Hands(p, t, h)
    ensures Shift(p, Install(p), t, h)
  {
    ShiftMove(p, Install(p), p.mid.b.items, InMid, InLocal(p.mid.t), t, h);
  }

  lemma ShiftPublish(p: Pool, t: nat, h: Option<nat>)
    requires PoolOk(p) && t in p.locals && Hands(p, t, h)
    ensures Shift(p, Publish(p, t), t, h)
  {
    assert LocalOk(p, t);
    ShiftMove(p, Publish(p, t), p.locals[t].list, InLocal(t), InGlobal, t, h);
  }

  lemma HeadAt(p: Pool, t: nat)
    requires PoolOk(p) && t in p.locals && p.locals[t].list != []
    ensures At(p, p.locals[t].list[0], InLocal(t))
  {
    assert LocalOk(p, t);
  }

  lemma ShiftDelete(p: Pool, t: nat, h: Option<nat>)
    requires PoolOk(p) && t in p.locals && p.locals[t].list != [] && Hands(p, t, h)
    ensures Shift(p, DeleteOne(p, t), t, h)
  {
    HeadAt(p, t);
    ShiftMove(p, DeleteOne(p, t), [p.locals[t].list[0]], InLocal(t), Deleted, t, h);
  }

  lemma ShiftTake(p: Pool, t: nat)
    requires PoolOk(p) && t in p.locals && p.locals[t].list != [] && Hands(p, t, None)
    ensures Shift(p, Take(p, t), t, Some(p.locals[t].list[0]))
  {
    var x := p.locals[t].list[0];
    HeadAt(p, t);
    MoveOne(p, x, InFlight(t));
    ShiftIn(p, Take(p, t), t, x);
  }

  lemma ShiftNew(p: Pool, t: nat, x: nat)
    requires x !in p.owner && Hands(p, t, None)
    ensures Shift(p, New(p, t, x), t, Some(x))
  {
    ShiftIn(p, New(p, t, x), t, x);
  }

  lemma ShiftCarryOut(p: Pool, t: nat, x: nat, to: Place)
    requires Hands(p, t, Some(x)) && !to.InFlight?
    ensures Shift(p, Carry(p, x, to), t, None)
  {
    assert At(p, x, InFlight(t));
    MoveOne(p, x, to);
    ShiftOut(p, Carry(p, x, to), t, x, to);
  }

  lemma ShiftCarryIn(p: Pool, t: nat, x: nat)
    requires At(p, x, Live) && Hands(p, t, None)
    ensures Shift(p, Carry(p, x, InFlight(t)), t, Some(x))
  {
    MoveOne(p, x, InFlight(t));
    ShiftIn(p, Carry(p, x, InFlight(t)), t, x);
  }

  lemma ShiftPush(p: Pool, t: nat, x: nat)
    requires t in p.locals && Hands(p, t, Some(x))
    ensures Shift(p, Push(p, t, x), t, None)
  {
    assert At(p, x, InFlight(t));
    MoveOne(p, x, InLocal(t));
    ShiftOut(p, Push(p, t, x), t, x, InLocal(t));
  }

  lemma ShiftTwice(p: Pool, q: Pool, r: Pool, t: nat, h: Option<nat>, g: Option<nat>)
    requires Shift(p, q, t, h) && Shift(q, r, t, g)
    ensures Shift(p, r, t, g)
  {
    forall u, y | u != t ensures At(r, y, InFlight(u)) <==> At(p, y, InFlight(u)) {
      assert At(q, y, InFlight(u)) <==> At(p, y, InFlight(u));
    }
  }

  lemma HandsAfter(m: Machine, m': Machine, t: nat)
    requires HandsOk(m) && t in m'.pc && m'.pc == m.pc[t := m'.pc[t]]
    requires Shift(m.pk, m'.pk, t, PacketHeld(m'.pc[t])) && Shift(m.bf, m'.bf, t, BufferHeld(m'.pc[t]))
    ensures HandsOk(m')
  {
    forall u: nat
      ensures Hands(m'.pk, u, PacketHeld(PcOf(m', u))) && Hands(m'.bf, u, BufferHeld(PcOf(m', u)))
    {
      if u != t {
        assert PcOf(m', u) == PcOf(m, u);
        assert Hands(m.pk, u, PacketHeld(PcOf(m, u))) && Hands(m.bf, u, BufferHeld(PcOf(m, u)));
        forall y: nat ensures At(m'.pk, y, InFlight(u)) <==> PacketHeld(PcOf(m', u)) == Some(y) {
          assert At(m'.pk, y, InFlight(u)) <==> At(m.pk, y, InFlight(u));
        }
        forall y: nat ensures At(m'.bf, y, InFlight(u)) <==> BufferHeld(PcOf(m', u)) == Some(y) {
          assert At(m'.bf, y, InFlight(u)) <==> At(m.bf, y, InFlight(u));
        }
      }
    }
  }

  lemma HandsOf(m: Machine, t: nat)
    requires HandsOk(m)
    ensures Hands(m.pk, t, PacketHeld(PcOf(m, t))) && Hands(m.bf, t, BufferHeld(PcOf(m, t)))
    ensures Shift(m.pk, m.pk, t, PacketHeld(PcOf(m, t))) && Shift(m.bf, m.bf, t, BufferHeld(PcOf(m, t)))
  {
  }

  /** Both pools' hands after a step of thread t. */
  ghost predicate BothShift(m: Machine, m': Machine, t: nat) {
    && t in m'.pc
    && Shift(m.pk, m'.pk, t, PacketHeld(m'.pc[t])) && Shift(m.bf, m'.bf, t, BufferHeld(m'.pc[t]))
  }

  lemma ShiftAlloc(m: Machine, t: nat, x: nat, ok: bool)
    requires MachineOk(m) && HandsOk(m) && Enabled(m, Advance(t, x, ok)) && !Recycling(m.pc[t])
    requires !m.pc[t].AllocTake? && !m.pc[t].AllocData?
    ensures BothShift(m, Next(m, Advance(t, x, ok)), t)
  {
    hide MachineOk, PoolOk, Unlink, Install, Shift, Hands, HandsOk;
    Mover(m, t);
    HandsOf(m, t);
    match m.pc[t] {
      case AllocP(wd) => if Starved(m.pk, t) { ShiftUnlink(m.pk, t, None); }
      case AllocP2(wd) => if m.pk.mid.Unlinked? { ShiftNone(m.pk, CountDown(m.pk), t, None); }
      case AllocP3(wd) => if m.pk.mid.Counted? { ShiftInstall(m.pk, t, None); }
      case AllocD(wd) => if wd && Starved(m.bf, t) { ShiftUnlink(m.bf, t, None); }
      case AllocD2(wd) => if m.bf.mid.Unlinked? { ShiftNone(m.bf, CountDown(m.bf), t, None); }
      case AllocD3(wd) => if m.bf.mid.Counted? { ShiftInstall(m.bf, t, None); }
      case _ =>
    }
  }

  lemma ShiftAllocTake(m: Machine, t: nat, x: nat, ok: bool)
    requires MachineOk(m) && HandsOk(m) && Enabled(m, Advance(t, x, ok)) && m.pc[t].AllocTake?
    ensures BothShift(m, Next(m, Advance(t, x, ok)), t)
  {
    hide MachineOk, PoolOk, Take, New, Shift, Hands, HandsOk;
    Mover(m, t);
    HandsOf(m, t);
    if m.pk.locals[t].list != [] { ShiftTake(m.pk, t); } else { ShiftNew(m.pk, t, x); }
  }

  lemma ShiftHandOut(p: Pool, t: nat, x: nat)
    requires PoolOk(p) && t in p.locals && x !in p.owner && Hands(p, t, None)
    ensures p.locals[t].list != [] ==> Shift(p, Carry(Take(p, t), p.locals[t].list[0], Live), t, None)
    ensures Shift(p, Carry(New(p, t, x), x, Live), t, None)
  {
    hide PoolOk, Take, New, Carry, Hands;
    if p.locals[t].list != [] {
      var b, taken := p.locals[t].list[0], Take(p, t);
      ShiftTake(p, t);
      ShiftCarryOut(taken, t, b, Live);
      ShiftTwice(p, taken, Carry(taken, b, Live), t, Some(b), None);
    }
    var made := New(p, t, x);
    ShiftNew(p, t, x);
    ShiftCarryOut(made, t, x, Live);
    ShiftTwice(p, made, Carry(made, x, Live), t, Some(x), None);
  }

  lemma ShiftAllocData(m: Machine, t: nat, x: nat, ok: bool)
    requires MachineOk(m) && HandsOk(m) && Enabled(m, Advance(t, x, ok)) && m.pc[t].AllocData?
    ensures BothShift(m, Next(m, Advance(t, x, ok)), t)
  {
    hide MachineOk, PoolOk, Take, New, Carry, Shift, Hands, HandsOk;
    Mover(m, t);
    HandsOf(m, t);
    var p := m.pc[t].p;
    ShiftCarryOut(m.pk, t, p, Live);
    ShiftCarryOut(m.pk, t, p, Deleted);
    ShiftHandOut(m.bf, t, x);
  }

  lemma ShiftRecycle(m: Machine, t: nat, x: nat, ok: bool)
    requires MachineOk(m) && HandsOk(m) && Enabled(m, Advance(t, x, ok)) && Recycling(m.pc[t]) && !m.pc[t].RecPush?
    ensures BothShift(m, Next(m, Advance(t, x, ok)), t)
  {
    hide MachineOk, PoolOk, Publish, DeleteOne, Shift, Hands, HandsOk, Full;
    Mover(m, t);
    HandsOf(m, t);
    var p, d := m.pc[t].p, m.pc[t].d;
    ShiftPublish(m.pk, t, Some(p));
    ShiftPublish(m.bf, t, d);
    if m.pk.locals[t].list != [] { ShiftDelete(m.pk, t, Some(p)); }
    if m.bf.locals[t].list != [] { ShiftDelete(m.bf, t, d); }
    if m.pk.mid.Published? && m.pk.mid.t in m.pk.locals { ShiftNone(m.pk, CountUp(m.pk), t, Some(p)); }
    if m.bf.mid.Published? && m.bf.mid.t in m.bf.locals { ShiftNone(m.bf, CountUp(m.bf), t, d); }
    if m.pk.mid == Deleting(t) { ShiftNone(m.pk, EndDelete(m.pk), t, Some(p)); }
    if m.bf.mid == Deleting(t) { ShiftNone(m.bf, EndDelete(m.bf), t, d); }
  }

  lemma ShiftRecPush(m: Machine, t: nat, x: nat, ok: bool)
    requires MachineOk(m) && HandsOk(m) && Enabled(m, Advance(t, x, ok)) && m.pc[t].RecPush?
    ensures BothShift(m, Next(m, Advance(t, x, ok)), t)
  {
    hide MachineOk, PoolOk, Push, Shift, Hands, HandsOk;
    HandsOf(m, t);
    ShiftPush(m.pk, t, m.pc[t].p);
    if m.pc[t].d.Some? { ShiftPush(m.bf, t, m.pc[t].d.value); }
  }

  lemma ShiftStart(m: Machine, t: nat, p: nat, d: Option<nat>)
    requires MachineOk(m) && HandsOk(m) && Enabled(m, StartRecycle(t, p, d))
    ensures BothShift(m, Next(m, StartRecycle(t, p, d)), t)
  {
    hide MachineOk, PoolOk, Carry, Shift, Hands, HandsOk, Full;
    HandsOf(m, t);
    ShiftCarryIn(m.pk, t, p);
    if d.Some? { ShiftCarryIn(m.bf, t, d.value); }
  }

  lemma ShiftEnter(m: Machine, t: nat)
    requires HandsOk(m) && t !in m.pc
    ensures Shift(m.pk, Join(m.pk, t), t, None) && Shift(m.bf, Join(m.bf, t), t, None)
  {
    HandsOf(m, t);
    ShiftNone(m.pk, Join(m.pk, t), t, None);
    ShiftNone(m.bf, Join(m.bf, t), t, None);
  }

  lemma StepShifts(m: Machine, l: Label)
    requires MachineOk(m) && HandsOk(m) && Enabled(m, l)
    ensures BothShift(m, Next(m, l), l.t) && Next(m, l).pc == m.pc[l.t := Next(m, l).pc[l.t]]
  {
    hide MachineOk, HandsOk, PoolOk, Shift, Unlink, Install, Publish, DeleteOne, Take, New, Push, Carry, Full, Starved;
    HandsOf(m, l.t);
    match l {
      case Enter(t) => ShiftEnter(m, t);
      case StartAlloc(t, wd) =>
      case StartRecycle(t, p, d) => ShiftStart(m, t, p, d);
      case Advance(t, x, ok) =>
        if m.pc[t].RecPush? { ShiftRecPush(m, t, x, ok); }
        else if Recycling(m.pc[t]) { ShiftRecycle(m, t, x, ok); }
        else if m.pc[t].AllocTake? { ShiftAllocTake(m, t, x, ok); }
        else if m.pc[t].AllocData? { ShiftAllocData(m, t, x, ok); }
        else { ShiftAlloc(m, t, x, ok); }
    }
  }

  /** Every step keeps the hands and the registers in agreement. */
  lemma NextHands(m: Machine, l: Label)
    requires MachineOk(m) && HandsOk(m) && Enabled(m, l)
    ensures HandsOk(Next(m, l))
  {
    hide MachineOk, HandsOk, Shift, Next;
    StepShifts(m, l);
    HandsAfter(m, Next(m, l), l.t);
  }

  /** In every reachable state, an object is in flight exactly when some thread has
      it in its registers. */
  lemma {:induction false} ReachableHands(run: seq<Label>)
    requires After(run).Some?
    ensures HandsOk(After(run).value)
    decreases |run|
  {
    hide MachineOk, Next, Enabled;
    if run != [] {
      var front := run[..|run| - 1];
      ReachableHands(front);
      ReachableOk(front);
      NextHands(After(front).value, run[|run| - 1]);
    }
  }

  /** Nothing is lost: an object in flight is in the hands of its thread ... */
  lemma InFlightHeld(m: Machine, run: seq<Label>, x: nat, t: nat)
    requires After(run) == Some(m)
    ensures At(m.pk, x, InFlight(t)) <==> t in m.pc && PacketHeld(m.pc[t]) == Some(x)
    ensures At(m.bf, x, InFlight(t)) <==> t in m.pc && BufferHeld(m.pc[t]) == Some(x)
  {
    ReachableHands(run);
    HandsOf(m, t);
  }

  /** Free in some list, in use, or given back to the system. */
  ghost predicate Settled(p: Pool, x: nat) {
    || At(p, x, Live) || At(p, x, Deleted)
    || (exists t :: t in p.locals && x in p.locals[t].list)
    || (exists i :: 0 <= i < |p.batches| && x in p.batches[i].items)
  }

  lemma SettledOk(p: Pool, x: nat)
    requires PoolOk(p) && p.mid == Rest && x in p.owner && !p.owner[x].InFlight?
    ensures Settled(p, x)
  {
    assert PlaceOk(p, x);
  }

  /** ... and when all threads are idle, every object ever made is pooled, live or
      deleted. */
  lemma NothingLost(m: Machine, run: seq<Label>)
    requires After(run) == Some(m) && forall t :: t in m.pc ==> m.pc[t] == Idle
    ensures forall x :: x in m.pk.owner ==> Settled(m.pk, x)
    ensures forall x :: x in m.bf.owner ==> Settled(m.bf, x)
  {
    hide PoolOk, Settled;
    ReachableOk(run);
    assert m.lock == None && m.pk.mid == Rest && m.bf.mid == Rest;
    forall x | x in m.pk.owner ensures Settled(m.pk, x) {
      forall t: nat ensures !At(m.pk, x, InFlight(t)) { InFlightHeld(m, run, x, t); }
      assert m.pk.owner[x].InFlight? ==> At(m.pk, x, InFlight(m.pk.owner[x].t));
      SettledOk(m.pk, x);
    }
    forall x | x in m.bf.owner ensures Settled(m.bf, x) {
      forall t: nat ensures !At(m.bf, x, InFlight(t)) { InFlightHeld(m, run, x, t); }
      assert m.bf.owner[x].InFlight? ==> At(m.bf, x, InFlight(m.bf.owner[x].t));
      SettledOk(m.bf, x);
    }
  }

  // ----- Runs of one thread among others ----------------------------------------

  /** Steps of any threads, during which t finishes no operation before the last. */
  ghost predicate Busy(m: Machine, t: nat, ls: seq<Label>)
    decreases |ls|
  {
    ls == [] || (Known(m, t) && m.pc[t] != Idle && Enabled(m, ls[0]) && Busy(Next(m, ls[0]), t, ls[1..]))
  }

  function Final(m: Machine, ls: seq<Label>): Machine
    decreases |ls|
  {
    if ls == [] || !Enabled(m, ls[0]) then m else Final(Next(m, ls[0]), ls[1..])
  }

  function PoolOf(m: Machine, buffers: bool): Pool { if buffers then m.bf else m.pk }

  /** What is seen of a pool at some moment. */
  datatype Event = Offers(b: Batch) | Crowded | Bare

  ghost predicate Happens(p: Pool, e: Event) {
    match e
    case Offers(b) => p.batches != [] && p.batches[0] == b
    case Crowded => p.batchCount == GLOBAL_COUNT
    case Bare => p.batches == []
  }

  ghost predicate Sometime(m: Machine, ls: seq<Label>, buffers: bool, e: Event)
    decreases |ls|
  {
    || Happens(PoolOf(m, buffers), e)
    || (ls != [] && Enabled(m, ls[0]) && Sometime(Next(m, ls[0]), ls[1..], buffers, e))
  }

  /** Only thread t's list may differ. */
  ghost predicate Framed(p: Pool, p': Pool, t: nat) {
    t in p.locals && t in p'.locals && p'.locals == p.locals[t := p'.locals[t]]
  }

  lemma FrameAlloc(p: Pool, t: nat, x: nat)
    requires t in p.locals
    ensures Framed(p, p, t) && Framed(p, New(p, t, x), t)
    ensures p.batches != [] ==> Framed(p, Unlink(p, t), t)
    ensures p.mid.Unlinked? ==> Framed(p, CountDown(p), t)
    ensures p.mid.Counted? && p.mid.t == t ==> Framed(p, Install(p), t)
    ensures p.locals[t].list != [] ==> Framed(p, Take(p, t), t)
  {
  }

  lemma FrameRecycle(p: Pool, t: nat, x: nat)
    requires t in p.locals
    ensures Framed(p, p, t) && Framed(p, Publish(p, t), t) && Framed(p, Push(p, t, x), t)
    ensures p.mid == Published(t) ==> Framed(p, CountUp(p), t)
    ensures p.mid == Deleting(t) ==> Framed(p, EndDelete(p), t)
    ensures p.locals[t].list != [] ==> Framed(p, DeleteOne(p, t), t)
  {
  }

  lemma CarryFrame(p: Pool, q: Pool, x: nat, to: Place, t: nat)
    requires Framed(p, q, t)
    ensures Framed(p, Carry(q, x, to), t)
  {
  }

  /** What the pools have under way belongs to the thread that goes on with it. */
  lemma MidMine(m: Machine, t: nat)
    requires MachineOk(m) && Known(m, t)
    ensures var pc := m.pc[t];
            && (pc.AllocP2? ==> m.pk.mid.Unlinked? && m.pk.mid.t == t)
            && (pc.AllocP3? ==> m.pk.mid.Counted? && m.pk.mid.t == t)
            && (pc.AllocD2? ==> m.bf.mid.Unlinked? && m.bf.mid.t == t)
            && (pc.AllocD3? ==> m.bf.mid.Counted? && m.bf.mid.t == t)
            && (pc.RecP2? ==> m.pk.mid == Published(t)) && (pc.RecD2? ==> m.bf.mid == Published(t))
            && (pc.RecPDel? && m.pk.locals[t].list == [] ==> m.pk.mid == Deleting(t))
            && (pc.RecDDel? && m.bf.locals[t].list == [] ==> m.bf.mid == Deleting(t))
            && (!pc.RecPDel? ==> m.pk.mid != Deleting(t)) && (!pc.RecDDel? ==> m.bf.mid != Deleting(t))
  {
    hide PoolOk, At;
    assert ThreadOk(m, t);
  }

  lemma AllocFramed(m: Machine, t: nat, x: nat, ok: bool)
    requires MachineOk(m) && Enabled(m, Advance(t, x, ok)) && !Recycling(m.pc[t])
    ensures var m' := Next(m, Advance(t, x, ok)); Framed(m.pk, m'.pk, t) && Framed(m.bf, m'.bf, t)
  {
    hide MachineOk, Unlink, CountDown, Install, Take, New, Carry, Framed;
    MidMine(m, t);
    FrameAlloc(m.pk, t, x);
    FrameAlloc(m.bf, t, x);
    if m.pc[t].AllocData? {
      var p := m.pc[t].p;
      CarryFrame(m.pk, m.pk, p, Live, t);
      CarryFrame(m.pk, m.pk, p, Deleted, t);
      CarryFrame(m.bf, New(m.bf, t, x), x, Live, t);
      if m.bf.locals[t].list != [] { CarryFrame(m.bf, Take(m.bf, t), m.bf.locals[t].list[0], Live, t); }
    }
  }

  lemma RecycleFramed(m: Machine, t: nat, x: nat, ok: bool)
    requires MachineOk(m) && Enabled(m, Advance(t, x, ok)) && Recycling(m.pc[t])
    ensures var m' := Next(m, Advance(t, x, ok)); Framed(m.pk, m'.pk, t) && Framed(m.bf, m'.bf, t)
  {
    hide MachineOk, Publish, CountUp, DeleteOne, EndDelete, Push, Full, Framed;
    MidMine(m, t);
    FrameRecycle(m.pk, t, m.pc[t].p);
    FrameRecycle(m.bf, t, if m.pc[t].d.Some? then m.pc[t].d.value else 0);
  }

  /** Another thread's step leaves t where it is, with its lists. */
  lemma OtherStep(m: Machine, l: Label, t: nat)
    requires MachineOk(m) && Enabled(m, l) && Known(m, t) && l.t != t
    ensures var m' := Next(m, l);
            Known(m', t) && m'.pc[t] == m.pc[t]
            && m'.pk.locals[t] == m.pk.locals[t] && m'.bf.locals[t] == m.bf.locals[t]
  {
    hide MachineOk, Unlink, CountDown, Install, Take, New, Starved, Publish, CountUp, DeleteOne, EndDelete, Push, Full;
    if l.Advance? {
      if Recycling(m.pc[l.t]) { RecycleFramed(m, l.t, l.x, l.ok); } else { AllocFramed(m, l.t, l.x, l.ok); }
      PcFramed(m, l);
    }
  }

  lemma PcFramed(m: Machine, l: Label)
    requires Enabled(m, l)
    ensures l.t in Next(m, l).pc && Next(m, l).pc == m.pc[l.t := Next(m, l).pc[l.t]]
  {
    hide Unlink, CountDown, Install, Take, New, Carry, Starved, Publish, CountUp, DeleteOne, EndDelete, Push, Full;
  }

  // ----- A whole recycle ---------------------------------------------------------

  predicate AtLimit(l: Local) { l.list != [] && l.count == POOL_SIZE }

  /** What is left of a list that is handed over when full. */
  function Kept(l: Local): Local { if AtLimit(l) then Local([], 0) else l }

  function Pushed(l: Local, x: nat): Local { Local([x] + l.list, l.count + 1) }

  /** A full list that is being deleted: what is gone, and what is left. */
  ghost predicate Partly(p: Pool, l: Local, left: seq<nat>) {
    |left| <= |l.list| && left == l.list[|l.list| - |left|..] && AllAt(p, l.list[..|l.list| - |left|], Deleted)
  }

  /** Thread t's list of packets at a step of recycle; it was l at the start. */
  ghost predicate PacketStage(p: Pool, t: nat, pc: PC, l: Local)
    requires t in p.locals
  {
    var mine := p.locals[t];
    if pc.RecLock? || pc.RecP? then mine == l
    else if pc.RecP2? then AtLimit(l) && mine.list == []
    else if pc.RecPDel? then AtLimit(l) && Partly(p, l, mine.list)
    else if pc.Idle? then true
    else mine == Kept(l)
  }

  ghost predicate BufferStage(p: Pool, t: nat, pc: PC, d: Option<nat>, b: Local)
    requires t in p.locals
  {
    var mine := p.locals[t];
    if pc.RecD2? then d.Some? && AtLimit(b) && mine.list == []
    else if pc.RecDDel? then d.Some? && AtLimit(b) && Partly(p, b, mine.list)
    else if pc.RecUnlock? || pc.RecPush? then mine == if d.Some? then Kept(b) else b
    else if pc.Idle? then true
    else mine == b
  }

  /** How far thread t has come in recycling p and d; l and b were its lists. */
  ghost predicate RecStage(m: Machine, t: nat, p: nat, d: Option<nat>, l: Local, b: Local) {
    && Known(m, t) && Recycling(m.pc[t]) && m.pc[t].p == p && m.pc[t].d == d
    && PacketStage(m.pk, t, m.pc[t], l) && BufferStage(m.bf, t, m.pc[t], d, b)
  }

  /** Its lists at the end. */
  ghost predicate Recycled(m: Machine, t: nat, p: nat, d: Option<nat>, l: Local, b: Local) {
    && Known(m, t) && m.pc[t] == Idle && m.pk.locals[t] == Pushed(Kept(l), p)
    && m.bf.locals[t] == if d.Some? then Pushed(Kept(b), d.value) else b
  }

  lemma StartStage(m: Machine, t: nat, p: nat, d: Option<nat>)
    requires MachineOk(m) && Enabled(m, StartRecycle(t, p, d))
    ensures RecStage(Next(m, StartRecycle(t, p, d)), t, p, d, m.pk.locals[t], m.bf.locals[t])
  {
    hide MachineOk, Partly;
  }

  /** Deleted objects stay deleted. */
  ghost predicate KeepsDeleted(p: Pool, p': Pool) {
    forall x :: At(p, x, Deleted) ==> At(p', x, Deleted)
  }

  lemma MoveDeleted(p: Pool, p': Pool, s: seq<nat>, from: Place, to: Place)
    requires p'.owner == Move(p, s, to) && AllAt(p, s, from) && from != Deleted
    ensures KeepsDeleted(p, p')
  {
    forall x | At(p, x, Deleted) ensures At(p', x, Deleted) {
      forall i | 0 <= i < |s| ensures s[i] != x { assert At(p, s[i], from); }
    }
  }

  lemma DeletedAlloc(p: Pool, t: nat, x: nat)
    requires PoolOk(p) && t in p.locals && x !in p.owner
    ensures KeepsDeleted(p, p) && KeepsDeleted(p, New(p, t, x)) && KeepsDeleted(p, Carry(New(p, t, x), x, Live))
    ensures p.batches != [] ==> KeepsDeleted(p, Unlink(p, t))
    ensures p.mid.Unlinked? ==> KeepsDeleted(p, CountDown(p))
    ensures p.mid.Counted? ==> KeepsDeleted(p, Install(p))
    ensures p.locals[t].list != [] ==> KeepsDeleted(p, Take(p, t))
    ensures p.locals[t].list != [] ==> KeepsDeleted(p, Carry(Take(p, t), p.locals[t].list[0], Live))
  {
    if p.batches != [] {
      assert BatchOk(p, p.batches[0], InGlobal);
      MoveDeleted(p, Unlink(p, t), p.batches[0].items, InGlobal, InMid);
    }
    if p.mid.Counted? { MoveDeleted(p, Install(p), p.mid.b.items, InMid, InLocal(p.mid.t)); }
    if p.locals[t].list != [] {
      HeadAt(p, t);
      MoveDeleted(p, Take(p, t), [p.locals[t].list[0]], InLocal(t), InFlight(t));
    }
  }

  lemma DeletedRecycle(p: Pool, t: nat)
    requires PoolOk(p) && t in p.locals
    ensures KeepsDeleted(p, p) && KeepsDeleted(p, Publish(p, t))
    ensures p.mid == Published(t) ==> KeepsDeleted(p, CountUp(p))
    ensures p.mid == Deleting(t) ==> KeepsDeleted(p, EndDelete(p))
    ensures p.locals[t].list != [] ==> KeepsDeleted(p, DeleteOne(p, t))
  {
    assert LocalOk(p, t);
    MoveDeleted(p, Publish(p, t), p.locals[t].list, InLocal(t), InGlobal);
    if p.locals[t].list != [] {
      HeadAt(p, t);
      MoveDeleted(p, DeleteOne(p, t), [p.locals[t].list[0]], InLocal(t), Deleted);
    }
  }

  lemma DeletedCarry(p: Pool, x: nat, to: Place)
    requires !At(p, x, Deleted)
    ensures KeepsDeleted(p, Carry(p, x, to))
  {
  }

  lemma DeletedPush(p: Pool, t: nat, x: nat)
    requires t in p.locals && !At(p, x, Deleted)
    ensures KeepsDeleted(p, Push(p, t, x))
  {
  }

  lemma AllocDeleted(m: Machine, t: nat, x: nat, ok: bool)
    requires MachineOk(m) && Enabled(m, Advance(t, x, ok)) && !Recycling(m.pc[t])
    ensures var m' := Next(m, Advance(t, x, ok)); KeepsDeleted(m.pk, m'.pk) && KeepsDeleted(m.bf, m'.bf)
  {
    hide MachineOk, PoolOk, Unlink, CountDown, Install, Take, New, Carry, KeepsDeleted;
    Mover(m, t);
    DeletedAlloc(m.pk, t, x);
    DeletedAlloc(m.bf, t, x);
    if m.pc[t].AllocData? {
      DeletedCarry(m.pk, m.pc[t].p, Live);
      DeletedCarry(m.pk, m.pc[t].p, Deleted);
    }
  }

  lemma RecycleDeleted(m: Machine, t: nat, x: nat, ok: bool)
    requires MachineOk(m) && Enabled(m, Advance(t, x, ok)) && Recycling(m.pc[t])
    ensures var m' := Next(m, Advance(t, x, ok)); KeepsDeleted(m.pk, m'.pk) && KeepsDeleted(m.bf, m'.bf)
  {
    hide MachineOk, PoolOk, Publish, CountUp, DeleteOne, EndDelete, Push, Full, KeepsDeleted;
    Mover(m, t);
    MidMine(m, t);
    DeletedRecycle(m.pk, t);
    DeletedRecycle(m.bf, t);
    DeletedPush(m.pk, t, m.pc[t].p);
    if m.pc[t].d.Some? { DeletedPush(m.bf, t, m.pc[t].d.value); }
  }

  lemma NextDeleted(m: Machine, l: Label)
    requires MachineOk(m) && Enabled(m, l)
    ensures KeepsDeleted(m.pk, Next(m, l).pk) && KeepsDeleted(m.bf, Next(m, l).bf)
  {
    hide MachineOk, PoolOk, Full, Starved;
    if l.Advance? {
      if Recycling(m.pc[l.t]) { RecycleDeleted(m, l.t, l.x, l.ok); } else { AllocDeleted(m, l.t, l.x, l.ok); }
    }
  }

  lemma PartlyKept(p: Pool, p': Pool, l: Local, left: seq<nat>)
    requires KeepsDeleted(p, p') && Partly(p, l, left)
    ensures Partly(p', l, left)
  {
  }

  lemma PartlyMore(p: Pool, t: nat, l: Local)
    requires PoolOk(p) && t in p.locals && p.locals[t].list != [] && Partly(p, l, p.locals[t].list)
    ensures Partly(DeleteOne(p, t), l, p.locals[t].list[1..])
  {
    hide PoolOk;
    var left, p' := p.locals[t].list, DeleteOne(p, t);
    var k := |l.list| - |left|;
    HeadAt(p, t);
    DeletedRecycle(p, t);
    assert left[1..] == l.list[k + 1..];
    var gone, more := l.list[..k], l.list[..k + 1];
    forall i | 0 <= i < |more| ensures At(p', more[i], Deleted) {
      if i < k { assert At(p, gone[i], Deleted); } else { assert more[i] == left[0]; }
    }
  }

  lemma PartlyAll(p: Pool, l: Local)
    ensures Partly(p, l, l.list)
    ensures Partly(p, l, []) ==> AllAt(p, l.list, Deleted)
  {
    assert l.list[..|l.list|] == l.list;
  }

  lemma RecStepPacket(m: Machine, t: nat, p: nat, d: Option<nat>, l: Local, b: Local, x: nat, ok: bool)
    requires MachineOk(m) && RecStage(m, t, p, d, l, b) && Enabled(m, Advance(t, x, ok))
    ensures var m' := Next(m, Advance(t, x, ok));
            && t in m'.pk.locals && PacketStage(m'.pk, t, PcOf(m', t), l)
            && (m.pc[t].RecPush? ==> m'.pk.locals[t] == Pushed(Kept(l), p))
  {
    hide MachineOk, PoolOk, Partly, Move, BufferStage;
    Mover(m, t);
    MidMine(m, t);
    PartlyAll(m.pk, l);
    if m.pc[t].RecPDel? && m.pk.locals[t].list != [] { PartlyMore(m.pk, t, l); }
  }

  lemma RecStepPc(m: Machine, t: nat, x: nat, ok: bool)
    requires MachineOk(m) && Enabled(m, Advance(t, x, ok)) && Recycling(m.pc[t])
    ensures var pc, pc' := m.pc[t], PcOf(Next(m, Advance(t, x, ok)), t);
            if pc.RecPush? then pc' == Idle else Recycling(pc') && pc'.p == pc.p && pc'.d == pc.d
  {
    hide MachineOk, Publish, CountUp, DeleteOne, EndDelete, Push, Full;
  }

  lemma RecStepBuffer(m: Machine, t: nat, p: nat, d: Option<nat>, l: Local, b: Local, x: nat, ok: bool)
    requires MachineOk(m) && RecStage(m, t, p, d, l, b) && Enabled(m, Advance(t, x, ok))
    ensures var m' := Next(m, Advance(t, x, ok));
            && t in m'.bf.locals && BufferStage(m'.bf, t, PcOf(m', t), d, b)
            && (m.pc[t].RecPush? ==> m'.bf.locals[t] == if d.Some? then Pushed(Kept(b), d.value) else b)
  {
    hide MachineOk, PoolOk, Partly, Move, PacketStage;
    Mover(m, t);
    MidMine(m, t);
    PartlyAll(m.bf, b);
    if m.pc[t].RecDDel? && m.bf.locals[t].list != [] { PartlyMore(m.bf, t, b); }
  }

  /** One step of t's recycling. */
  lemma RecStep(m: Machine, t: nat, p: nat, d: Option<nat>, l: Local, b: Local, x: nat, ok: bool)
    requires MachineOk(m) && RecStage(m, t, p, d, l, b) && Enabled(m, Advance(t, x, ok))
    ensures var m' := Next(m, Advance(t, x, ok));
            if m.pc[t].RecPush? then Recycled(m', t, p, d, l, b) else RecStage(m', t, p, d, l, b)
  {
    hide MachineOk, PacketStage, BufferStage, Next;
    PcFramed(m, Advance(t, x, ok));
    RecStepPc(m, t, x, ok);
    RecStepPacket(m, t, p, d, l, b, x, ok);
    RecStepBuffer(m, t, p, d, l, b, x, ok);
  }

  lemma RecOther(m: Machine, t: nat, p: nat, d: Option<nat>, l: Local, b: Local, k: Label)
    requires MachineOk(m) && RecStage(m, t, p, d, l, b) && Enabled(m, k) && k.t != t
    ensures RecStage(Next(m, k), t, p, d, l, b) && Next(m, k).pc[t] == m.pc[t]
  {
    hide MachineOk, Next, Partly;
    OtherStep(m, k, t);
    NextDeleted(m, k);
    if m.pc[t].RecPDel? { PartlyKept(m.pk, Next(m, k).pk, l, m.pk.locals[t].list); }
    if m.pc[t].RecDDel? { PartlyKept(m.bf, Next(m, k).bf, b, m.bf.locals[t].list); }
  }

  lemma {:induction false} DeletedForever(m: Machine, ls: seq<Label>, buffers: bool, s: seq<nat>)
    requires MachineOk(m) && AllAt(PoolOf(m, buffers), s, Deleted)
    ensures AllAt(PoolOf(Final(m, ls), buffers), s, Deleted)
    decreases |ls|
  {
    hide MachineOk, Next, Enabled;
    if ls != [] && Enabled(m, ls[0]) {
      var m' := Next(m, ls[0]);
      NextDeleted(m, ls[0]);
      NextOk(m, ls[0]);
      DeletedForever(m', ls[1..], buffers, s);
    }
  }

  /** A full list l goes to the global pool as one batch, or, when that has sixteen,
      is deleted. */
  ghost predicate HandedOver(m: Machine, ls: seq<Label>, buffers: bool, l: Local) {
    || Sometime(m, ls, buffers, Offers(Batch(l.list, l.count)))
    || (Sometime(m, ls, buffers, Crowded) && AllAt(PoolOf(Final(m, ls), buffers), l.list, Deleted))
  }

  /** What the rest of the run does with full lists, from each stage on. */
  ghost predicate Disposed(m: Machine, ls: seq<Label>, t: nat, l: Local, b: Local)
    requires Known(m, t) && Recycling(m.pc[t])
  {
    var pc, fin := m.pc[t], Final(m, ls);
    && (pc.RecLock? || pc.RecP? ==> AtLimit(l) ==> HandedOver(m, ls, false, l))
    && (pc.RecPDel? ==> AllAt(fin.pk, l.list, Deleted))
    && (pc.RecLock? || pc.RecP? || pc.RecP2? || pc.RecPDel? || pc.RecD? ==>
          pc.d.Some? && AtLimit(b) ==> HandedOver(m, ls, true, b))
    && (pc.RecDDel? ==> AllAt(fin.bf, b.list, Deleted))
  }

  lemma SometimeLater(m: Machine, ls: seq<Label>, buffers: bool, l: Local)
    requires ls != [] && Enabled(m, ls[0]) && HandedOver(Next(m, ls[0]), ls[1..], buffers, l)
    ensures HandedOver(m, ls, buffers, l)
  {
    hide Next, Enabled;
  }

  /** Where a full list goes is decided at these steps. */
  lemma RecDecides(m: Machine, t: nat, p: nat, d: Option<nat>, l: Local, b: Local, x: nat, ok: bool)
    requires MachineOk(m) && RecStage(m, t, p, d, l, b) && Enabled(m, Advance(t, x, ok))
    ensures var m' := Next(m, Advance(t, x, ok));
            && (m.pc[t].RecP? && AtLimit(l) ==>
                  if PcOf(m', t).RecPDel? then Happens(m.pk, Crowded)
                  else PcOf(m', t).RecP2? && Happens(m'.pk, Offers(Batch(l.list, l.count))))
            && (m.pc[t].RecPDel? && !PcOf(m', t).RecPDel? ==> PcOf(m', t).RecD? && AllAt(m'.pk, l.list, Deleted))
  {
    hide MachineOk, PoolOk, Partly, Move;
    Mover(m, t);
    MidMine(m, t);
    PartlyAll(m.pk, l);
    if m.pc[t].RecPDel? && m.pk.locals[t].list == [] {
      assert AllAt(m.pk, l.list, Deleted);
      SameOwner(m.pk, EndDelete(m.pk), l.list, Deleted);
    }
  }

  lemma RecDecidesBuffer(m: Machine, t: nat, p: nat, d: Option<nat>, l: Local, b: Local, x: nat, ok: bool)
    requires MachineOk(m) && RecStage(m, t, p, d, l, b) && Enabled(m, Advance(t, x, ok))
    ensures var m' := Next(m, Advance(t, x, ok));
            && (m.pc[t].RecD? && d.Some? && AtLimit(b) ==>
                  if PcOf(m', t).RecDDel? then Happens(m.bf, Crowded)
                  else PcOf(m', t).RecD2? && Happens(m'.bf, Offers(Batch(b.list, b.count))))
            && (m.pc[t].RecDDel? && !PcOf(m', t).RecDDel? ==> PcOf(m', t).RecUnlock? && AllAt(m'.bf, b.list, Deleted))
  {
    hide MachineOk, PoolOk, Partly, Move;
    Mover(m, t);
    MidMine(m, t);
    PartlyAll(m.bf, b);
    if m.pc[t].RecDDel? && m.bf.locals[t].list == [] {
      assert AllAt(m.bf, b.list, Deleted);
      SameOwner(m.bf, EndDelete(m.bf), b.list, Deleted);
    }
  }

  /** The order of the steps. */
  lemma RecOrder(m: Machine, t: nat, x: nat, ok: bool)
    requires MachineOk(m) && Enabled(m, Advance(t, x, ok)) && Recycling(m.pc[t])
    requires m.pc[t].RecLock? || m.pc[t].RecP? || m.pc[t].RecP2? || m.pc[t].RecPDel?
    ensures var pc, pc' := m.pc[t], PcOf(Next(m, Advance(t, x, ok)), t);
            && (pc.RecLock? ==> pc'.RecLock? || pc'.RecP?)
            && (pc.RecP? ==> pc'.RecP2? || pc'.RecPDel? || pc'.RecD?)
            && (pc.RecP2? ==> pc'.RecD?) && (pc.RecPDel? ==> pc'.RecPDel? || pc'.RecD?)
  {
    hide MachineOk, Publish, CountUp, DeleteOne, EndDelete, Full;
    MidMine(m, t);
  }

  lemma RecOrderBuffer(m: Machine, t: nat, x: nat, ok: bool)
    requires MachineOk(m) && Enabled(m, Advance(t, x, ok)) && (m.pc[t].RecD? || m.pc[t].RecDDel?)
    ensures var pc, pc' := m.pc[t], PcOf(Next(m, Advance(t, x, ok)), t);
            && (pc.RecD? ==> pc'.RecD2? || pc'.RecDDel? || pc'.RecUnlock?)
            && (pc.RecDDel? ==> pc'.RecDDel? || pc'.RecUnlock?)
  {
    hide MachineOk, Publish, CountUp, DeleteOne, EndDelete, Full;
    MidMine(m, t);
  }

  lemma Handed(m: Machine, ls: seq<Label>, buffers: bool, l: Local)
    requires ls != [] && Enabled(m, ls[0])
    requires var m' := Next(m, ls[0]);
             || Happens(PoolOf(m', buffers), Offers(Batch(l.list, l.count)))
             || (Happens(PoolOf(m, buffers), Crowded) && AllAt(PoolOf(Final(m', ls[1..]), buffers), l.list, Deleted))
    ensures HandedOver(m, ls, buffers, l)
  {
    hide Next, Enabled, Happens;
    var m' := Next(m, ls[0]);
    assert Final(m, ls) == Final(m', ls[1..]);
    if Happens(PoolOf(m', buffers), Offers(Batch(l.list, l.count))) {
      assert Sometime(m', ls[1..], buffers, Offers(Batch(l.list, l.count)));
    }
  }

  /** Packets, over one step of t. */
  lemma DisposePackets(m: Machine, t: nat, p: nat, d: Option<nat>, l: Local, b: Local, ls: seq<Label>)
    requires MachineOk(m) && RecStage(m, t, p, d, l, b) && ls != [] && Enabled(m, ls[0]) && ls[0].t == t
    requires var m' := Next(m, ls[0]);
             MachineOk(m') && RecStage(m', t, p, d, l, b) && Disposed(m', ls[1..], t, l, b)
    ensures m.pc[t].RecLock? || m.pc[t].RecP? ==> AtLimit(l) ==> HandedOver(m, ls, false, l)
    ensures m.pc[t].RecPDel? ==> AllAt(Final(m, ls).pk, l.list, Deleted)
  {
    hide MachineOk, RecStage, Next, HandedOver, Happens, AtLimit;
    StageKnown(m, t, p, d, l, b);
    var m', pc := Next(m, ls[0]), m.pc[t];
    StageKnown(m', t, p, d, l, b);
    if pc.RecLock? || pc.RecP? || pc.RecP2? || pc.RecPDel? { RecOrder(m, t, ls[0].x, ls[0].ok); }
    RecDecides(m, t, p, d, l, b, ls[0].x, ls[0].ok);
    assert Final(m, ls) == Final(m', ls[1..]);
    if AtLimit(l) && (pc.RecLock? || pc.RecP?) {
      if pc.RecLock? { SometimeLater(m, ls, false, l); } else { Handed(m, ls, false, l); }
    }
    if pc.RecPDel? && !m'.pc[t].RecPDel? { DeletedForever(m', ls[1..], false, l.list); }
  }

  lemma DisposeBuffers(m: Machine, t: nat, p: nat, d: Option<nat>, l: Local, b: Local, ls: seq<Label>)
    requires MachineOk(m) && RecStage(m, t, p, d, l, b) && ls != [] && Enabled(m, ls[0]) && ls[0].t == t
    requires var m' := Next(m, ls[0]);
             MachineOk(m') && RecStage(m', t, p, d, l, b) && Disposed(m', ls[1..], t, l, b)
    ensures var pc := m.pc[t];
            && (pc.RecLock? || pc.RecP? || pc.RecP2? || pc.RecPDel? || pc.RecD? ==>
                  d.Some? && AtLimit(b) ==> HandedOver(m, ls, true, b))
            && (pc.RecDDel? ==> AllAt(Final(m, ls).bf, b.list, Deleted))
  {
    hide MachineOk, RecStage, Next, HandedOver, Happens, AtLimit;
    StageKnown(m, t, p, d, l, b);
    var m', pc := Next(m, ls[0]), m.pc[t];
    StageKnown(m', t, p, d, l, b);
    if pc.RecLock? || pc.RecP? || pc.RecP2? || pc.RecPDel? { RecOrder(m, t, ls[0].x, ls[0].ok); }
    if pc.RecD? || pc.RecDDel? { RecOrderBuffer(m, t, ls[0].x, ls[0].ok); }
    RecDecidesBuffer(m, t, p, d, l, b, ls[0].x, ls[0].ok);
    assert Final(m, ls) == Final(m', ls[1..]);
    if d.Some? && AtLimit(b) && (pc.RecLock? || pc.RecP? || pc.RecP2? || pc.RecPDel? || pc.RecD?) {
      if pc.RecD? { Handed(m, ls, true, b); } else { SometimeLater(m, ls, true, b); }
    }
    if pc.RecDDel? && !m'.pc[t].RecDDel? { DeletedForever(m', ls[1..], true, b.list); }
  }

  lemma StageKnown(m: Machine, t: nat, p: nat, d: Option<nat>, l: Local, b: Local)
    requires RecStage(m, t, p, d, l, b)
    ensures Known(m, t) && m.pc[t] != Idle && Recycling(m.pc[t]) && m.pc[t].p == p && m.pc[t].d == d
  {
  }

  lemma DisposeLater(m: Machine, t: nat, l: Local, b: Local, ls: seq<Label>)
    requires Known(m, t) && Recycling(m.pc[t]) && ls != [] && Enabled(m, ls[0])
    requires var m' := Next(m, ls[0]); Known(m', t) && m'.pc[t] == m.pc[t] && Disposed(m', ls[1..], t, l, b)
    ensures Disposed(m, ls, t, l, b)
  {
    hide Next, HandedOver, AtLimit;
    var m', pc := Next(m, ls[0]), m.pc[t];
    assert Final(m, ls) == Final(m', ls[1..]);
    if HandedOver(m', ls[1..], false, l) { SometimeLater(m, ls, false, l); }
    if HandedOver(m', ls[1..], true, b) { SometimeLater(m, ls, true, b); }
  }

  /** From any stage to the end. */
  lemma {:induction false} RecycleFrom(m: Machine, t: nat, p: nat, d: Option<nat>, l: Local, b: Local, ls: seq<Label>)
    requires MachineOk(m) && RecStage(m, t, p, d, l, b) && Busy(m, t, ls)
    ensures var fin := Final(m, ls);
            || RecStage(fin, t, p, d, l, b)
            || (Recycled(fin, t, p, d, l, b) && Known(m, t) && Recycling(m.pc[t]) && Disposed(m, ls, t, l, b))
    decreases |ls|
  {
    hide MachineOk, RecStage, Recycled, Next, Enabled, Disposed;
    StageKnown(m, t, p, d, l, b);
    if ls != [] {
      var k, m' := ls[0], Next(m, ls[0]);
      NextOk(m, k);
      assert Final(m, ls) == Final(m', ls[1..]);
      if k.t != t {
        RecOther(m, t, p, d, l, b, k);
        RecycleFrom(m', t, p, d, l, b, ls[1..]);
        if !RecStage(Final(m, ls), t, p, d, l, b) { DisposeLater(m, t, l, b, ls); }
      } else {
        OwnLabel(m, k);
        RecStep(m, t, p, d, l, b, k.x, k.ok);
        if m.pc[t].RecPush? {
          RecycledIdle(m', t, p, d, l, b);
          PushDisposes(m, t, l, b, ls);
        } else {
          RecycleFrom(m', t, p, d, l, b, ls[1..]);
          if !RecStage(Final(m, ls), t, p, d, l, b) {
            DisposePackets(m, t, p, d, l, b, ls);
            DisposeBuffers(m, t, p, d, l, b, ls);
            DisposeBoth(m, t, l, b, ls);
          }
        }
      }
    }
  }

  lemma OwnLabel(m: Machine, k: Label)
    requires Enabled(m, k) && k.t in m.pc && m.pc[k.t] != Idle
    ensures k.Advance?
  {
  }

  lemma RecycledIdle(m: Machine, t: nat, p: nat, d: Option<nat>, l: Local, b: Local)
    requires Recycled(m, t, p, d, l, b)
    ensures t in m.pc && m.pc[t] == Idle
  {
  }

  lemma PushDisposes(m: Machine, t: nat, l: Local, b: Local, ls: seq<Label>)
    requires Known(m, t) && m.pc[t].RecPush?
    ensures Disposed(m, ls, t, l, b)
  {
  }

  lemma DisposeBoth(m: Machine, t: nat, l: Local, b: Local, ls: seq<Label>)
    requires Known(m, t) && Recycling(m.pc[t])
    requires var pc := m.pc[t];
             && (pc.RecLock? || pc.RecP? ==> AtLimit(l) ==> HandedOver(m, ls, false, l))
             && (pc.RecPDel? ==> AllAt(Final(m, ls).pk, l.list, Deleted))
             && (pc.RecLock? || pc.RecP? || pc.RecP2? || pc.RecPDel? || pc.RecD? ==>
                   pc.d.Some? && AtLimit(b) ==> HandedOver(m, ls, true, b))
             && (pc.RecDDel? ==> AllAt(Final(m, ls).bf, b.list, Deleted))
    ensures Disposed(m, ls, t, l, b)
  {
  }

  /** recycle, from call to return, among any steps of other threads: the packet and
      its buffer end on top of the thread's lists, and a list that was full went to
      the global pool as one batch or, with sixteen batches there, was deleted. */
  lemma RecycleRun(m: Machine, t: nat, p: nat, d: Option<nat>, ls: seq<Label>)
    requires MachineOk(m) && Enabled(m, StartRecycle(t, p, d))
    requires var m1 := Next(m, StartRecycle(t, p, d)); Busy(m1, t, ls) && PcOf(Final(m1, ls), t) == Idle
    ensures var m1, l, b := Next(m, StartRecycle(t, p, d)), m.pk.locals[t], m.bf.locals[t];
            && Recycled(Final(m1, ls), t, p, d, l, b)
            && (AtLimit(l) ==> HandedOver(m1, ls, false, l))
            && (d.Some? && AtLimit(b) ==> HandedOver(m1, ls, true, b))
  {
    hide MachineOk, RecStage, Recycled, HandedOver;
    var m1, l, b := Next(m, StartRecycle(t, p, d)), m.pk.locals[t], m.bf.locals[t];
    StartStage(m, t, p, d);
    NextOk(m, StartRecycle(t, p, d));
    RecycleFrom(m1, t, p, d, l, b, ls);
    if RecStage(Final(m1, ls), t, p, d, l, b) {
      StageKnown(Final(m1, ls), t, p, d, l, b);
      assert false;
    }
  }

  // ----- Every operation ends ------------------------------------------------------

  /** The most steps that thread t still has to do. */
  function Left(m: Machine, t: nat): nat
    requires Known(m, t)
  {
    var p, b := |m.pk.locals[t].list|, |m.bf.locals[t].list|;
    match m.pc[t]
    case Idle => 0
    case AllocLock(_) => 10
    case AllocP(_) => 9
    case AllocP2(_) => 8
    case AllocP3(_) => 7
    case AllocD(_) => 6
    case AllocD2(_) => 5
    case AllocD3(_) => 4
    case AllocUnlock(_) => 3
    case AllocTake(_) => 2
    case AllocData(_, _) => 1
    case RecLock(_, _) => p + b + 7
    case RecP(_, _) => p + b + 6
    case RecP2(_, _) => b + 5
    case RecPDel(_, _) => p + b + 5
    case RecD(_, _) => b + 4
    case RecD2(_, _) => 3
    case RecDDel(_, _) => b + 3
    case RecUnlock(_, _) => 2
    case RecPush(_, _) => 1
  }

  /** Thread t spins on a lock that another has. */
  predicate Spins(m: Machine, t: nat)
    requires Known(m, t)
  {
    (m.pc[t].AllocLock? || m.pc[t].RecLock?) && m.lock != None
  }

  lemma AllocGoesOn(m: Machine, t: nat, x: nat, ok: bool)
    requires MachineOk(m) && Enabled(m, Advance(t, x, ok)) && !Recycling(m.pc[t])
    ensures var m' := Next(m, Advance(t, x, ok));
            Known(m', t) && if Spins(m, t) then m' == m else Left(m', t) < Left(m, t)
  {
    hide MachineOk, Move, Starved;
    MidMine(m, t);
  }

  lemma RecycleGoesOn(m: Machine, t: nat, x: nat, ok: bool)
    requires MachineOk(m) && Enabled(m, Advance(t, x, ok)) && Recycling(m.pc[t])
    ensures var m' := Next(m, Advance(t, x, ok));
            Known(m', t) && if Spins(m, t) then m' == m else Left(m', t) < Left(m, t)
  {
    hide MachineOk, Move, Full;
    MidMine(m, t);
  }

  /** The steps of t in a run, those that spin apart. */
  function StepsOf(m: Machine, ls: seq<Label>, t: nat): nat
    decreases |ls|
  {
    if ls == [] || !Enabled(m, ls[0]) then 0
    else
      (if ls[0].t == t && Known(m, t) && !Spins(m, t) then 1 else 0) + StepsOf(Next(m, ls[0]), ls[1..], t)
  }

  /** An operation under way ends after a bounded number of its thread's steps, not
      counting those that wait for the lock. */
  lemma {:induction false} Bounded(m: Machine, t: nat, ls: seq<Label>)
    requires MachineOk(m) && Known(m, t) && Busy(m, t, ls)
    ensures Known(Final(m, ls), t) && StepsOf(m, ls, t) + Left(Final(m, ls), t) <= Left(m, t)
    decreases |ls|
  {
    hide MachineOk, Next, Enabled;
    if ls != [] {
      var k := ls[0];
      NextOk(m, k);
      if k.t != t {
        OtherStep(m, k, t);
        SameLeft(m, Next(m, k), t);
      } else {
        OwnLabel(m, k);
        if Recycling(m.pc[t]) { RecycleGoesOn(m, t, k.x, k.ok); } else { AllocGoesOn(m, t, k.x, k.ok); }
      }
      Bounded(Next(m, k), t, ls[1..]);
    }
  }

  lemma SameLeft(m: Machine, m': Machine, t: nat)
    requires Known(m, t) && Known(m', t) && m'.pc[t] == m.pc[t]
    requires m'.pk.locals[t] == m.pk.locals[t] && m'.bf.locals[t] == m.bf.locals[t]
    ensures Left(m', t) == Left(m, t)
  {
  }

  /** At most about two thousand steps, and whoever has the lock does not wait. */
  lemma LeftBound(m: Machine, t: nat)
    requires MachineOk(m) && Known(m, t)
    ensures Left(m, t) <= 2 * POOL_SIZE + 10
    ensures Spins(m, t) ==> var u := m.lock.value; Known(m, u) && !Spins(m, u) && Left(m, u) > 0
  {
    hide PoolOk, At;
    Mover(m, t);
    if m.lock.Some? { assert ThreadOk(m, m.lock.value); }
  }
}
