/** The per-thread and global packet pools of lib/packet.cc (user level, pools
    and threads enabled) as a state machine over the steps of all threads.

    Packet objects and data buffers are pooled by the same scheme, so one `Pool`
    describes either; the machine has one of each, a spin lock, and a program
    counter per thread.
 */
module PacketPool {
  import opened Wrappers

  const POOL_SIZE := 1000
  const GLOBAL_COUNT := 16

  // ----- One pool -----------------------------------------------------------

  /** A thread's free list and its stored count. */
  datatype Local = Local(list: seq<nat>, count: int)

  /** A batch in the global pool; the count is stored in its first object. */
  datatype Batch = Batch(items: seq<nat>, count: int)

  /** Where an object is.  This is bookkeeping of the model: it lets the invariant
      say that an object is in one place only. */
  datatype Place = InLocal(t: nat) | InGlobal | InMid | InFlight(t: nat) | Live | Deleted

  /** What the lock holder has begun and not finished. */
  datatype Mid =
    | Rest
    | Unlinked(t: nat, b: Batch)   // taken off the global list, not yet subtracted
    | Counted(t: nat, b: Batch)    // subtracted, not yet installed locally
    | Published(t: nat)            // on the global list, not yet added up
    | Deleting(t: nat)             // local list being deleted

  datatype Pool = Pool(locals: map<nat, Local>, batches: seq<Batch>, batchCount: int, owner: map<nat, Place>, mid: Mid)

  // ----- Invariant of one pool ----------------------------------------------

  ghost predicate Distinct(s: seq<nat>) {
    forall i, j :: 0 <= i < j < |s| ==> s[i] != s[j]
  }

  ghost predicate At(p: Pool, x: nat, place: Place) {
    x in p.owner && p.owner[x] == place
  }

  ghost predicate AllAt(p: Pool, s: seq<nat>, place: Place) {
    forall i :: 0 <= i < |s| ==> At(p, s[i], place)
  }

  ghost predicate LocalOk(p: Pool, t: nat)
    requires t in p.locals
  {
    var l := p.locals[t];
    && Distinct(l.list) && AllAt(p, l.list, InLocal(t)) && |l.list| <= POOL_SIZE
    && (p.mid == Published(t) ==> l.list == [])
    && (p.mid != Published(t) && p.mid != Deleting(t) ==> l.count == |l.list|)
  }

  ghost predicate BatchOk(p: Pool, b: Batch, place: Place) {
    Distinct(b.items) && AllAt(p, b.items, place) && b.count == |b.items| && 1 <= |b.items| <= POOL_SIZE
  }

  ghost predicate BatchesOk(p: Pool) {
    && |p.batches| <= GLOBAL_COUNT
    && (forall i :: 0 <= i < |p.batches| ==> BatchOk(p, p.batches[i], InGlobal))
    && (forall i, j, x :: 0 <= i < j < |p.batches| && x in p.batches[i].items ==> x !in p.batches[j].items)
  }

  /** The stored number of batches, corrected by what is under way. */
  ghost predicate CountOk(p: Pool) {
    p.batchCount == |p.batches| + (if p.mid.Unlinked? then 1 else 0) - (if p.mid.Published? then 1 else 0)
  }

  ghost predicate MidOk(p: Pool) {
    match p.mid
    case Unlinked(t, b) => BatchOk(p, b, InMid) && t in p.locals && p.locals[t].list == []
    case Counted(t, b) => BatchOk(p, b, InMid) && t in p.locals && p.locals[t].list == []
    case Published(t) => t in p.locals
    case Deleting(t) => t in p.locals
    case Rest => true
  }

  /** Objects are where the bookkeeping says. */
  ghost predicate PlaceOk(p: Pool, x: nat)
    requires x in p.owner
  {
    match p.owner[x]
    case InLocal(t) => t in p.locals && x in p.locals[t].list
    case InGlobal => exists i :: 0 <= i < |p.batches| && x in p.batches[i].items
    case InMid => (p.mid.Unlinked? || p.mid.Counted?) && x in p.mid.b.items
    case _ => true
  }

  ghost predicate PoolOk(p: Pool) {
    && (forall t :: t in p.locals ==> LocalOk(p, t))
    && BatchesOk(p) && CountOk(p) && MidOk(p)
    && (forall x :: x in p.owner ==> PlaceOk(p, x))
  }

  // ----- Steps on one pool --------------------------------------------------

  function Move(p: Pool, s: seq<nat>, place: Place): map<nat, Place> {
    map x | x in p.owner :: if x in s then place else p.owner[x]
  }

  /** Stealing: unlink the first global batch ... */
  function Unlink(p: Pool, t: nat): Pool
    requires p.batches != []
  {
    p.(batches := p.batches[1..], mid := Unlinked(t, p.batches[0]), owner := Move(p, p.batches[0].items, InMid))
  }

  /** ... count it ... */
  function CountDown(p: Pool): Pool
    requires p.mid.Unlinked?
  {
    p.(batchCount := p.batchCount - 1, mid := Counted(p.mid.t, p.mid.b))
  }

  /** ... and make it the thread's list, trusting the stored count. */
  function Install(p: Pool): Pool
    requires p.mid.Counted?
  {
    var t, b := p.mid.t, p.mid.b;
    p.(locals := p.locals[t := Local(b.items, b.count)], mid := Rest, owner := Move(p, b.items, InLocal(t)))
  }

  /** Handing a full list over to the global pool ... */
  function Publish(p: Pool, t: nat): Pool
    requires t in p.locals
  {
    var l := p.locals[t];
    p.(batches := [Batch(l.list, l.count)] + p.batches, locals := p.locals[t := Local([], l.count)],
       mid := Published(t), owner := Move(p, l.list, InGlobal))
  }

  /** ... and counting it. */
  function CountUp(p: Pool): Pool
    requires p.mid.Published? && p.mid.t in p.locals
  {
    p.(batchCount := p.batchCount + 1, locals := p.locals[p.mid.t := Local(p.locals[p.mid.t].list, 0)], mid := Rest)
  }

  /** With the global pool full, a full list is deleted one object at a time. */
  function DeleteOne(p: Pool, t: nat): Pool
    requires t in p.locals && p.locals[t].list != []
  {
    var l := p.locals[t];
    p.(locals := p.locals[t := Local(l.list[1..], l.count)], mid := Deleting(t), owner := Move(p, [l.list[0]], Deleted))
  }

  function EndDelete(p: Pool): Pool
    requires p.mid.Deleting? && p.mid.t in p.locals
  {
    p.(locals := p.locals[p.mid.t := Local(p.locals[p.mid.t].list, 0)], mid := Rest)
  }

  /** Take the first object of the thread's list. */
  function Take(p: Pool, t: nat): Pool
    requires t in p.locals && p.locals[t].list != []
  {
    var l := p.locals[t];
    p.(locals := p.locals[t := Local(l.list[1..], l.count - 1)], owner := Move(p, [l.list[0]], InFlight(t)))
  }

  /** A new object x from the system allocator. */
  function New(p: Pool, t: nat, x: nat): Pool {
    p.(owner := p.owner[x := InFlight(t)])
  }

  /** Put a dead object back on the thread's list. */
  function Push(p: Pool, t: nat, x: nat): Pool
    requires t in p.locals
  {
    var l := p.locals[t];
    p.(locals := p.locals[t := Local([x] + l.list, l.count + 1)], owner := Move(p, [x], InLocal(t)))
  }

  /** An object changes between user code, a thread's hands, and oblivion. */
  function Carry(p: Pool, x: nat, place: Place): Pool {
    p.(owner := Move(p, [x], place))
  }

  function Join(p: Pool, t: nat): Pool {
    p.(locals := p.locals[t := Local([], 0)])
  }

  // ----- Each step keeps the pool in order ----------------------------------

  /** Objects that move do not belong to a list about another place. */
  lemma ListUnmoved(p: Pool, p': Pool, s: seq<nat>, from: Place, to: Place, list: seq<nat>, place: Place)
    requires p'.owner == Move(p, s, to) && AllAt(p, s, from) && AllAt(p, list, place) && from != place
    ensures AllAt(p', list, place)
  {
    forall i | 0 <= i < |list| ensures At(p', list[i], place) {
      assert At(p, list[i], place);
    }
  }

  lemma ListMoved(p: Pool, p': Pool, s: seq<nat>, to: Place, list: seq<nat>, from: Place)
    requires p'.owner == Move(p, s, to) && AllAt(p, list, from) && forall x :: x in list ==> x in s
    ensures AllAt(p', list, to)
  {
    forall i | 0 <= i < |list| ensures At(p', list[i], to) { assert At(p, list[i], from) && list[i] in s; }
  }

  /** Part of the lock holder's business: nothing but `owner` entries of `s`, which
      were at `from`, and thread t's list change. */
  ghost predicate Moves(p: Pool, p': Pool, s: seq<nat>, from: Place, to: Place, t: nat) {
    && p'.owner == Move(p, s, to) && AllAt(p, s, from) && from != to
    && t in p.locals && t in p'.locals && p'.locals == p.locals[t := p'.locals[t]]
  }

  lemma OtherLocals(p: Pool, p': Pool, s: seq<nat>, from: Place, to: Place, t: nat, u: nat)
    requires PoolOk(p) && Moves(p, p', s, from, to, t) && u in p.locals && u != t && from != InLocal(u)
    requires p.mid != Published(u) && p.mid != Deleting(u) && p'.mid != Published(u) && p'.mid != Deleting(u)
    ensures LocalOk(p', u)
  {
    assert LocalOk(p, u);
    ListUnmoved(p, p', s, from, to, p.locals[u].list, InLocal(u));
  }

  lemma SameBatches(p: Pool, p': Pool, s: seq<nat>, from: Place, to: Place, t: nat)
    requires PoolOk(p) && Moves(p, p', s, from, to, t) && from != InGlobal && p'.batches == p.batches
    ensures BatchesOk(p')
  {
    forall i | 0 <= i < |p.batches| ensures BatchOk(p', p.batches[i], InGlobal) {
      assert BatchOk(p, p.batches[i], InGlobal);
      ListUnmoved(p, p', s, from, to, p.batches[i].items, InGlobal);
    }
  }

  /** Objects that stay are still where they were. */
  lemma OtherPlaces(p: Pool, p': Pool, s: seq<nat>, from: Place, to: Place, t: nat, x: nat)
    requires PoolOk(p) && Moves(p, p', s, from, to, t) && x in p.owner && x !in s
    requires p.owner[x] == InLocal(t) ==> x in p'.locals[t].list
    requires p.owner[x] == InGlobal ==> exists i :: 0 <= i < |p'.batches| && x in p'.batches[i].items
    requires p.owner[x] == InMid ==> p'.mid == p.mid
    ensures x in p'.owner && PlaceOk(p', x)
  {
    assert PlaceOk(p, x);
  }

  lemma UnlinkOk(p: Pool, t: nat)
    requires PoolOk(p) && p.mid == Rest && p.batches != [] && t in p.locals && p.locals[t].list == []
    ensures PoolOk(Unlink(p, t))
  {
    var p', b := Unlink(p, t), p.batches[0];
    assert BatchOk(p, b, InGlobal);
    ListMoved(p, p', b.items, InMid, b.items, InGlobal);
    assert BatchOk(p', b, InMid);
    forall u | u in p'.locals ensures LocalOk(p', u) {
      assert LocalOk(p, u);
      ListUnmoved(p, p', b.items, InGlobal, InMid, p.locals[u].list, InLocal(u));
    }
    assert BatchesOk(p') by { RestOfBatches(p, p'); }
    forall x | x in p'.owner ensures PlaceOk(p', x) {
      assert PlaceOk(p, x);
      if x !in b.items && p.owner[x] == InGlobal {
        var i :| 0 <= i < |p.batches| && x in p.batches[i].items;
        assert p'.batches[i - 1] == p.batches[i];
      }
    }
  }

  lemma RestOfBatches(p: Pool, p': Pool)
    requires BatchesOk(p) && p.batches != [] && p'.batches == p.batches[1..]
    requires p'.owner == Move(p, p.batches[0].items, InMid)
    ensures BatchesOk(p')
  {
    forall i | 0 <= i < |p'.batches| ensures BatchOk(p', p'.batches[i], InGlobal) {
      assert BatchOk(p, p.batches[i + 1], InGlobal);
      forall k | 0 <= k < |p'.batches[i].items| ensures At(p', p'.batches[i].items[k], InGlobal) {
        assert At(p, p.batches[i + 1].items[k], InGlobal);
        assert p.batches[i + 1].items[k] in p.batches[i + 1].items;
      }
    }
    forall i, j, x | 0 <= i < j < |p'.batches| && x in p'.batches[i].items ensures x !in p'.batches[j].items {
      assert p'.batches[i] == p.batches[i + 1] && p'.batches[j] == p.batches[j + 1];
    }
  }

  lemma CountDownOk(p: Pool)
    requires PoolOk(p) && p.mid.Unlinked?
    ensures PoolOk(CountDown(p))
  {
    Relabelled(p, CountDown(p));
  }

  /** The middle of an operation moves on; the objects stay. */
  lemma Relabelled(p: Pool, p': Pool)
    requires PoolOk(p) && p'.locals == p.locals && p'.batches == p.batches && p'.owner == p.owner
    requires (p.mid.Unlinked? && p'.mid == Counted(p.mid.t, p.mid.b)) && CountOk(p')
    ensures PoolOk(p')
  {
    forall u | u in p'.locals ensures LocalOk(p', u) {
      assert LocalOk(p, u);
      assert AllAt(p', p.locals[u].list, InLocal(u)) by { SameOwner(p, p', p.locals[u].list, InLocal(u)); }
    }
    forall i | 0 <= i < |p'.batches| ensures BatchOk(p', p'.batches[i], InGlobal) {
      assert BatchOk(p, p.batches[i], InGlobal);
      SameOwner(p, p', p.batches[i].items, InGlobal);
    }
    SameOwner(p, p', p.mid.b.items, InMid);
    forall x | x in p'.owner ensures PlaceOk(p', x) { assert PlaceOk(p, x); }
  }

  lemma SameOwner(p: Pool, p': Pool, list: seq<nat>, place: Place)
    requires p'.owner == p.owner && AllAt(p, list, place)
    ensures AllAt(p', list, place)
  {
    forall i | 0 <= i < |list| ensures At(p', list[i], place) { assert At(p, list[i], place); }
  }

  lemma InstallOk(p: Pool)
    requires PoolOk(p) && p.mid.Counted?
    ensures PoolOk(Install(p))
  {
    var p', t, b := Install(p), p.mid.t, p.mid.b;
    assert Moves(p, p', b.items, InMid, InLocal(t), t);
    ListMoved(p, p', b.items, InLocal(t), b.items, InMid);
    forall u | u in p'.locals ensures LocalOk(p', u) {
      if u != t { OtherLocals(p, p', b.items, InMid, InLocal(t), t, u); }
    }
    SameBatches(p, p', b.items, InMid, InLocal(t), t);
    forall x | x in p'.owner ensures PlaceOk(p', x) {
      assert PlaceOk(p, x) && LocalOk(p, t);
      if x !in b.items { OtherPlaces(p, p', b.items, InMid, InLocal(t), t, x); }
    }
  }

  lemma PublishOk(p: Pool, t: nat)
    requires PoolOk(p) && p.mid == Rest && t in p.locals && p.locals[t].list != [] && p.batchCount < GLOBAL_COUNT
    ensures PoolOk(Publish(p, t))
  {
    var p', l := Publish(p, t), p.locals[t];
    assert LocalOk(p, t);
    assert Moves(p, p', l.list, InLocal(t), InGlobal, t);
    ListMoved(p, p', l.list, InGlobal, l.list, InLocal(t));
    forall u | u in p'.locals ensures LocalOk(p', u) {
      if u != t { OtherLocals(p, p', l.list, InLocal(t), InGlobal, t, u); }
    }
    assert BatchesOk(p') by { OneMoreBatch(p, p', t); }
    forall x | x in p'.owner ensures PlaceOk(p', x) {
      if x in l.list {
        assert x in p'.batches[0].items;
      } else {
        assert PlaceOk(p, x);
        if p.owner[x] == InGlobal {
          var i :| 0 <= i < |p.batches| && x in p.batches[i].items;
          assert p'.batches[i + 1] == p.batches[i];
        }
        OtherPlaces(p, p', l.list, InLocal(t), InGlobal, t, x);
      }
    }
  }

  lemma OneMoreBatch(p: Pool, p': Pool, t: nat)
    requires PoolOk(p) && p.mid == Rest && t in p.locals && p.locals[t].list != [] && p.batchCount < GLOBAL_COUNT
    requires Moves(p, p', p.locals[t].list, InLocal(t), InGlobal, t)
    requires p'.batches == [Batch(p.locals[t].list, p.locals[t].count)] + p.batches
    ensures BatchesOk(p')
  {
    var l := p.locals[t];
    assert LocalOk(p, t);
    ListMoved(p, p', l.list, InGlobal, l.list, InLocal(t));
    forall i | 0 <= i < |p'.batches| ensures BatchOk(p', p'.batches[i], InGlobal) {
      if i > 0 {
        assert BatchOk(p, p.batches[i - 1], InGlobal);
        ListUnmoved(p, p', l.list, InLocal(t), InGlobal, p.batches[i - 1].items, InGlobal);
      }
    }
    forall i, j, x | 0 <= i < j < |p'.batches| && x in p'.batches[i].items ensures x !in p'.batches[j].items {
      assert p'.batches[j] == p.batches[j - 1] && BatchOk(p, p.batches[j - 1], InGlobal);
      if i == 0 {
        var k :| 0 <= k < |l.list| && l.list[k] == x;
        assert At(p, l.list[k], InLocal(t));
        var items := p.batches[j - 1].items;
        forall m | 0 <= m < |items| ensures items[m] != x { assert At(p, items[m], InGlobal); }
      } else {
        assert p'.batches[i] == p.batches[i - 1];
      }
    }
  }

  /** The end of a hand-over or of a deletion: the list is empty, the count 0. */
  lemma FinishOk(p: Pool, p': Pool, t: nat)
    requires PoolOk(p) && (p.mid == Published(t) || p.mid == Deleting(t)) && t in p.locals && p.locals[t].list == []
    requires p'.locals == p.locals[t := Local([], 0)] && p'.batches == p.batches && p'.owner == p.owner
    requires p'.mid == Rest && CountOk(p')
    ensures PoolOk(p')
  {
    forall u | u in p'.locals ensures LocalOk(p', u) {
      assert LocalOk(p, u);
      SameOwner(p, p', p.locals[u].list, InLocal(u));
    }
    forall i | 0 <= i < |p'.batches| ensures BatchOk(p', p'.batches[i], InGlobal) {
      assert BatchOk(p, p.batches[i], InGlobal);
      SameOwner(p, p', p.batches[i].items, InGlobal);
    }
    forall x | x in p'.owner ensures PlaceOk(p', x) { assert PlaceOk(p, x); }
  }

  lemma CountUpOk(p: Pool)
    requires PoolOk(p) && p.mid.Published?
    ensures p.mid.t in p.locals && PoolOk(CountUp(p)) && p.locals[p.mid.t].list == []
  {
    assert LocalOk(p, p.mid.t);
    FinishOk(p, CountUp(p), p.mid.t);
  }

  lemma EndDeleteOk(p: Pool)
    requires PoolOk(p) && p.mid.Deleting? && p.mid.t in p.locals && p.locals[p.mid.t].list == []
    ensures PoolOk(EndDelete(p))
  {
    FinishOk(p, EndDelete(p), p.mid.t);
  }

  /** The first object leaves thread t's list for a place outside the lists. */
  lemma HeadLeaves(p: Pool, p': Pool, t: nat, to: Place)
    requires PoolOk(p) && t in p.locals && p.locals[t].list != []
    requires to.InFlight? || to == Deleted
    requires var l := p.locals[t].list;
             && t in p'.locals && p'.locals == p.locals[t := p'.locals[t]] && p'.locals[t].list == l[1..]
             && p'.batches == p.batches && p'.batchCount == p.batchCount && p'.owner == Move(p, [l[0]], to)
    requires p'.mid == p.mid != Published(t) || (p.mid == Rest && p'.mid == Deleting(t))
    requires p'.mid == Deleting(t) || p'.locals[t].count == p.locals[t].count - 1
    ensures PoolOk(p')
  {
    var l := p.locals[t].list;
    var s := [l[0]];
    assert LocalOk(p, t) && At(p, l[0], InLocal(t));
    assert Moves(p, p', s, InLocal(t), to, t);
    forall u | u in p'.locals ensures LocalOk(p', u) {
      assert LocalOk(p, u);
      if u != t {
        ListUnmoved(p, p', s, InLocal(t), to, p.locals[u].list, InLocal(u));
      } else {
        forall i | 0 <= i < |l| - 1 ensures At(p', l[1..][i], InLocal(t)) {
          assert At(p, l[i + 1], InLocal(t)) && l[i + 1] != l[0];
        }
      }
    }
    SameBatches(p, p', s, InLocal(t), to, t);
    if p.mid.Unlinked? || p.mid.Counted? { ListUnmoved(p, p', s, InLocal(t), to, p.mid.b.items, InMid); }
    forall x | x in p'.owner ensures PlaceOk(p', x) {
      assert PlaceOk(p, x);
      if x != l[0] {
        if p.owner[x] == InLocal(t) {
          var i :| 0 <= i < |l| && l[i] == x;
          assert x == l[1..][i - 1];
        }
        OtherPlaces(p, p', s, InLocal(t), to, t, x);
      }
    }
  }

  lemma TakeOk(p: Pool, t: nat)
    requires PoolOk(p) && t in p.locals && p.locals[t].list != [] && p.mid != Published(t) && p.mid != Deleting(t)
    ensures PoolOk(Take(p, t)) && At(p, p.locals[t].list[0], InLocal(t))
  {
    assert LocalOk(p, t);
    HeadLeaves(p, Take(p, t), t, InFlight(t));
  }

  lemma DeleteOneOk(p: Pool, t: nat)
    requires PoolOk(p) && t in p.locals && p.locals[t].list != [] && (p.mid == Rest || p.mid == Deleting(t))
    ensures PoolOk(DeleteOne(p, t))
  {
    HeadLeaves(p, DeleteOne(p, t), t, Deleted);
  }

  /** An object in the thread's hands goes to the front of its list.  The count
      is below the limit, as the source asserts afterwards. */
  lemma PushOk(p: Pool, t: nat, x: nat)
    requires PoolOk(p) && t in p.locals && At(p, x, InFlight(t)) && p.locals[t].count < POOL_SIZE
    requires p.mid != Published(t) && p.mid != Deleting(t) && !(p.mid.Unlinked? && p.mid.t == t)
    requires !(p.mid.Counted? && p.mid.t == t)
    ensures PoolOk(Push(p, t, x)) && Push(p, t, x).locals[t].count <= POOL_SIZE
  {
    var p', l, s := Push(p, t, x), p.locals[t].list, [x];
    assert LocalOk(p, t);
    assert Moves(p, p', s, InFlight(t), InLocal(t), t);
    forall u | u in p'.locals ensures LocalOk(p', u) {
      assert LocalOk(p, u);
      ListUnmoved(p, p', s, InFlight(t), InLocal(t), p.locals[u].list, InLocal(u));
      if u == t { FrontAdded(p, p', t, x); }
    }
    SameBatches(p, p', s, InFlight(t), InLocal(t), t);
    if p.mid.Unlinked? || p.mid.Counted? { ListUnmoved(p, p', s, InFlight(t), InLocal(t), p.mid.b.items, InMid); }
    forall y | y in p'.owner ensures PlaceOk(p', y) {
      assert PlaceOk(p, y);
      if y != x { OtherPlaces(p, p', s, InFlight(t), InLocal(t), t, y); }
    }
  }

  lemma FrontAdded(p: Pool, p': Pool, t: nat, x: nat)
    requires t in p.locals && Distinct(p.locals[t].list) && AllAt(p, p.locals[t].list, InLocal(t))
    requires At(p, x, InFlight(t))
    requires AllAt(p', p.locals[t].list, InLocal(t)) && At(p', x, InLocal(t))
    ensures Distinct([x] + p.locals[t].list) && AllAt(p', [x] + p.locals[t].list, InLocal(t))
  {
    var l := p.locals[t].list;
    var n := [x] + l;
    forall i | 0 <= i < |n| ensures At(p', n[i], InLocal(t)) {
      assert i > 0 ==> n[i] == l[i - 1] && At(p', l[i - 1], InLocal(t));
    }
    forall i, j | 0 <= i < j < |n| ensures n[i] != n[j] {
      assert n[j] == l[j - 1] && At(p, l[j - 1], InLocal(t));
      assert i > 0 ==> n[i] == l[i - 1];
    }
  }

  /** Only the bookkeeping of one object outside the lists changes. */
  lemma OutsideOk(p: Pool, p': Pool, x: nat, to: Place)
    requires PoolOk(p) && p' == p.(owner := p'.owner) && p'.owner == p.owner[x := to]
    requires x in p.owner ==> p.owner[x].InFlight? || p.owner[x].Live? || p.owner[x].Deleted?
    requires to.InFlight? || to.Live? || to.Deleted?
    ensures PoolOk(p')
  {
    forall u | u in p'.locals ensures LocalOk(p', u) {
      assert LocalOk(p, u);
      OutsideList(p, p', x, to, p.locals[u].list, InLocal(u));
    }
    forall i | 0 <= i < |p'.batches| ensures BatchOk(p', p'.batches[i], InGlobal) {
      assert BatchOk(p, p.batches[i], InGlobal);
      OutsideList(p, p', x, to, p.batches[i].items, InGlobal);
    }
    if p.mid.Unlinked? || p.mid.Counted? { OutsideList(p, p', x, to, p.mid.b.items, InMid); }
    forall y | y in p'.owner ensures PlaceOk(p', y) {
      if y != x { assert PlaceOk(p, y); }
    }
  }

  lemma OutsideList(p: Pool, p': Pool, x: nat, to: Place, list: seq<nat>, place: Place)
    requires p'.owner == p.owner[x := to] && AllAt(p, list, place)
    requires x in p.owner ==> p.owner[x] != place
    ensures AllAt(p', list, place)
  {
    forall i | 0 <= i < |list| ensures At(p', list[i], place) { assert At(p, list[i], place); }
  }

  lemma NewOk(p: Pool, t: nat, x: nat)
    requires PoolOk(p) && x !in p.owner
    ensures PoolOk(New(p, t, x))
  {
    OutsideOk(p, New(p, t, x), x, InFlight(t));
  }

  lemma CarryOk(p: Pool, x: nat, to: Place)
    requires PoolOk(p) && x in p.owner && (p.owner[x].InFlight? || p.owner[x].Live?)
    requires to.InFlight? || to.Live? || to.Deleted?
    ensures PoolOk(Carry(p, x, to)) && At(Carry(p, x, to), x, to)
  {
    assert Carry(p, x, to).owner == p.owner[x := to];
    OutsideOk(p, Carry(p, x, to), x, to);
  }

  /** make_local_packet_pool: a thread's first use. */
  lemma JoinOk(p: Pool, t: nat)
    requires PoolOk(p) && t !in p.locals
    ensures PoolOk(Join(p, t))
  {
    var p' := Join(p, t);
    forall u | u in p'.locals ensures LocalOk(p', u) {
      if u != t {
        assert LocalOk(p, u);
        SameOwner(p, p', p.locals[u].list, InLocal(u));
      }
    }
    forall i | 0 <= i < |p'.batches| ensures BatchOk(p', p'.batches[i], InGlobal) {
      assert BatchOk(p, p.batches[i], InGlobal);
      SameOwner(p, p', p.batches[i].items, InGlobal);
    }
    if p.mid.Unlinked? || p.mid.Counted? { SameOwner(p, p', p.mid.b.items, InMid); }
    forall x | x in p'.owner ensures PlaceOk(p', x) { assert PlaceOk(p, x); }
  }

  // ----- The machine --------------------------------------------------------

  /** Where a thread is in pool_allocate or recycle.  `wd`: a pool-sized buffer is
      wanted; p, d: the packet and buffer being recycled. */
  datatype PC =
    | Idle
    | AllocLock(wd: bool) | AllocP(wd: bool) | AllocP2(wd: bool) | AllocP3(wd: bool)
    | AllocD(wd: bool) | AllocD2(wd: bool) | AllocD3(wd: bool) | AllocUnlock(wd: bool)
    | AllocTake(wd: bool) | AllocData(p: nat, wd: bool)
    | RecLock(p: nat, d: Option<nat>) | RecP(p: nat, d: Option<nat>) | RecP2(p: nat, d: Option<nat>)
    | RecPDel(p: nat, d: Option<nat>) | RecD(p: nat, d: Option<nat>) | RecD2(p: nat, d: Option<nat>)
    | RecDDel(p: nat, d: Option<nat>) | RecUnlock(p: nat, d: Option<nat>) | RecPush(p: nat, d: Option<nat>)

  datatype Machine = Machine(pk: Pool, bf: Pool, lock: Option<nat>, pc: map<nat, PC>)

  const NOTHING := Pool(map[], [], 0, map[], Rest)
  const INIT := Machine(NOTHING, NOTHING, None, map[])

  /** A thread appears, begins an operation, or takes its next step.  `x` is the
      address the system allocator would give out, `ok` whether it can. */
  datatype Label =
    | Enter(t: nat)
    | StartAlloc(t: nat, wd: bool)
    | StartRecycle(t: nat, p: nat, d: Option<nat>)
    | Advance(t: nat, x: nat, ok: bool)

  predicate Known(m: Machine, t: nat) {
    t in m.pc && t in m.pk.locals && t in m.bf.locals
  }

  predicate Enabled(m: Machine, l: Label) {
    match l
    case Enter(t) => t !in m.pc && t !in m.pk.locals && t !in m.bf.locals
    case StartAlloc(t, _) => Known(m, t) && m.pc[t] == Idle
    case StartRecycle(t, p, d) =>
      && Known(m, t) && m.pc[t] == Idle && p in m.pk.owner && m.pk.owner[p] == Live
      && (d.Some? ==> d.value in m.bf.owner && m.bf.owner[d.value] == Live)
    case Advance(t, x, _) => Known(m, t) && m.pc[t] != Idle && x !in m.pk.owner && x !in m.bf.owner
  }

  /** A thread's list is full and must be handed over. */
  predicate Full(p: Pool, t: nat)
    requires t in p.locals
  {
    p.locals[t].list != [] && p.locals[t].count == POOL_SIZE
  }

  /** A thread has nothing and the global pool has something. */
  predicate Starved(p: Pool, t: nat)
    requires t in p.locals
  {
    p.locals[t].list == [] && p.batches != []
  }

  function Goto(m: Machine, t: nat, pc: PC): Machine { m.(pc := m.pc[t := pc]) }

  function Next(m: Machine, l: Label): Machine
    requires Enabled(m, l)
  {
    match l
    case Enter(t) => m.(pk := Join(m.pk, t), bf := Join(m.bf, t), pc := m.pc[t := Idle])
    case StartAlloc(t, wd) =>
      Goto(m, t, if Starved(m.pk, t) || (wd && Starved(m.bf, t)) then AllocLock(wd) else AllocTake(wd))
    case StartRecycle(t, p, d) =>
      var m1 := m.(pk := Carry(m.pk, p, InFlight(t)),
                   bf := if d.Some? then Carry(m.bf, d.value, InFlight(t)) else m.bf);
      Goto(m1, t, if Full(m.pk, t) || (d.Some? && Full(m.bf, t)) then RecLock(p, d) else RecPush(p, d))
    case Advance(t, x, ok) =>
      match m.pc[t]
      case Idle => m
      // pool_allocate
      case AllocLock(wd) => if m.lock == None then Goto(m.(lock := Some(t)), t, AllocP(wd)) else m
      case AllocP(wd) =>
        if Starved(m.pk, t) then Goto(m.(pk := Unlink(m.pk, t)), t, AllocP2(wd)) else Goto(m, t, AllocD(wd))
      case AllocP2(wd) => if m.pk.mid.Unlinked? then Goto(m.(pk := CountDown(m.pk)), t, AllocP3(wd)) else m
      case AllocP3(wd) => if m.pk.mid.Counted? then Goto(m.(pk := Install(m.pk)), t, AllocD(wd)) else m
      case AllocD(wd) =>
        if wd && Starved(m.bf, t) then Goto(m.(bf := Unlink(m.bf, t)), t, AllocD2(wd)) else Goto(m, t, AllocUnlock(wd))
      case AllocD2(wd) => if m.bf.mid.Unlinked? then Goto(m.(bf := CountDown(m.bf)), t, AllocD3(wd)) else m
      case AllocD3(wd) => if m.bf.mid.Counted? then Goto(m.(bf := Install(m.bf)), t, AllocUnlock(wd)) else m
      case AllocUnlock(wd) => Goto(m.(lock := None), t, AllocTake(wd))
      case AllocTake(wd) =>
        if m.pk.locals[t].list != [] then Goto(m.(pk := Take(m.pk, t)), t, AllocData(m.pk.locals[t].list[0], wd))
        else if ok then Goto(m.(pk := New(m.pk, t, x)), t, AllocData(x, wd))
        else Goto(m, t, Idle)
      case AllocData(p, wd) =>
        var done := Goto(m.(pk := Carry(m.pk, p, Live)), t, Idle);
        if !wd then done
        else if m.bf.locals[t].list != [] then done.(bf := Carry(Take(m.bf, t), m.bf.locals[t].list[0], Live))
        else if ok then done.(bf := Carry(New(m.bf, t, x), x, Live))
        else Goto(m.(pk := Carry(m.pk, p, Deleted)), t, Idle)
      // recycle
      case RecLock(p, d) => if m.lock == None then Goto(m.(lock := Some(t)), t, RecP(p, d)) else m
      case RecP(p, d) =>
        if !Full(m.pk, t) then Goto(m, t, RecD(p, d))
        else if m.pk.batchCount == GLOBAL_COUNT then Goto(m, t, RecPDel(p, d))
        else Goto(m.(pk := Publish(m.pk, t)), t, RecP2(p, d))
      case RecP2(p, d) =>
        if m.pk.mid.Published? && m.pk.mid.t in m.pk.locals then Goto(m.(pk := CountUp(m.pk)), t, RecD(p, d)) else m
      case RecPDel(p, d) =>
        if m.pk.locals[t].list != [] then m.(pk := DeleteOne(m.pk, t))
        else if m.pk.mid == Deleting(t) then Goto(m.(pk := EndDelete(m.pk)), t, RecD(p, d)) else m
      case RecD(p, d) =>
        if d == None || !Full(m.bf, t) then Goto(m, t, RecUnlock(p, d))
        else if m.bf.batchCount == GLOBAL_COUNT then Goto(m, t, RecDDel(p, d))
        else Goto(m.(bf := Publish(m.bf, t)), t, RecD2(p, d))
      case RecD2(p, d) =>
        if m.bf.mid.Published? && m.bf.mid.t in m.bf.locals then Goto(m.(bf := CountUp(m.bf)), t, RecUnlock(p, d))
        else m
      case RecDDel(p, d) =>
        if m.bf.locals[t].list != [] then m.(bf := DeleteOne(m.bf, t))
        else if m.bf.mid == Deleting(t) then Goto(m.(bf := EndDelete(m.bf)), t, RecUnlock(p, d)) else m
      case RecUnlock(p, d) => Goto(m.(lock := None), t, RecPush(p, d))
      case RecPush(p, d) =>
        Goto(m.(pk := Push(m.pk, t, p), bf := if d.Some? then Push(m.bf, t, d.value) else m.bf), t, Idle)
  }

  // ----- Invariant of the machine -------------------------------------------

  /** Between acquiring and releasing the lock. */
  predicate Holding(pc: PC) {
    pc.AllocP? || pc.AllocP2? || pc.AllocP3? || pc.AllocD? || pc.AllocD2? || pc.AllocD3? || pc.AllocUnlock?
    || pc.RecP? || pc.RecP2? || pc.RecPDel? || pc.RecD? || pc.RecD2? || pc.RecDDel? || pc.RecUnlock?
  }

  predicate Recycling(pc: PC) {
    || pc.RecLock? || pc.RecP? || pc.RecP2? || pc.RecPDel? || pc.RecD? || pc.RecD2? || pc.RecDDel?
    || pc.RecUnlock? || pc.RecPush?
  }

  /** What the packet pool has under way while thread t is at `pc`. */
  ghost predicate PacketMid(p: Pool, t: nat, pc: PC)
    requires t in p.locals
  {
    if pc.AllocP2? then p.mid.Unlinked? && p.mid.t == t
    else if pc.AllocP3? then p.mid.Counted? && p.mid.t == t
    else if pc.RecP2? then p.mid == Published(t)
    else if pc.RecPDel? then p.mid == Deleting(t) || (p.mid == Rest && p.locals[t].list != [])
    else p.mid == Rest
  }

  ghost predicate BufferMid(p: Pool, t: nat, pc: PC)
    requires t in p.locals
  {
    if pc.AllocD2? then p.mid.Unlinked? && p.mid.t == t
    else if pc.AllocD3? then p.mid.Counted? && p.mid.t == t
    else if pc.RecD2? then p.mid == Published(t)
    else if pc.RecDDel? then p.mid == Deleting(t) || (p.mid == Rest && p.locals[t].list != [])
    else p.mid == Rest
  }

  ghost predicate MidsOk(m: Machine) {
    match m.lock
    case None => m.pk.mid == Rest && m.bf.mid == Rest
    case Some(t) => Known(m, t) && PacketMid(m.pk, t, m.pc[t]) && BufferMid(m.bf, t, m.pc[t])
  }

  /** Thread t's registers and the room in its lists. */
  ghost predicate ThreadOk(m: Machine, t: nat)
    requires Known(m, t)
  {
    var pc := m.pc[t];
    && (m.lock == Some(t) <==> Holding(pc))
    && (pc.AllocData? ==> At(m.pk, pc.p, InFlight(t)))
    && (Recycling(pc) ==> At(m.pk, pc.p, InFlight(t)) && (pc.d.Some? ==> At(m.bf, pc.d.value, InFlight(t))))
    && (pc.RecD? || pc.RecD2? || pc.RecDDel? || pc.RecUnlock? || pc.RecPush? ==> m.pk.locals[t].count < POOL_SIZE)
    && ((pc.RecUnlock? || pc.RecPush?) && pc.d.Some? ==> m.bf.locals[t].count < POOL_SIZE)
  }

  ghost predicate MachineOk(m: Machine) {
    && PoolOk(m.pk) && PoolOk(m.bf) && MidsOk(m)
    && m.pc.Keys == m.pk.locals.Keys == m.bf.locals.Keys
    && (forall t :: t in m.pc ==> ThreadOk(m, t))
  }

  // ----- What a thread's step leaves alone ----------------------------------

  /** Other threads' lists and objects in hand are as before. */
  ghost predicate Mine(p: Pool, p': Pool, t: nat) {
    && p'.locals.Keys == p.locals.Keys
    && (forall u :: u in p.locals && u != t ==> p'.locals[u] == p.locals[u])
    && (forall y, u :: u != t && At(p, y, InFlight(u)) ==> At(p', y, InFlight(u)))
  }

  /** Nobody's object in hand moved. */
  ghost predicate HandsKept(p: Pool, p': Pool) {
    forall y, u :: At(p, y, InFlight(u)) ==> At(p', y, InFlight(u))
  }

  lemma MoveKeepsHands(p: Pool, p': Pool, s: seq<nat>, from: Place, to: Place)
    requires p'.owner == Move(p, s, to) && AllAt(p, s, from) && !from.InFlight?
    ensures HandsKept(p, p')
  {
    forall y, u | At(p, y, InFlight(u)) ensures At(p', y, InFlight(u)) {
      forall i | 0 <= i < |s| ensures s[i] != y { assert At(p, s[i], from); }
    }
  }

  lemma UnlinkHands(p: Pool, t: nat)
    requires PoolOk(p) && p.batches != []
    ensures Mine(p, Unlink(p, t), t) && HandsKept(p, Unlink(p, t))
  {
    assert BatchOk(p, p.batches[0], InGlobal);
    MoveKeepsHands(p, Unlink(p, t), p.batches[0].items, InGlobal, InMid);
  }

  lemma InstallHands(p: Pool)
    requires PoolOk(p) && p.mid.Counted?
    ensures Mine(p, Install(p), p.mid.t) && HandsKept(p, Install(p))
  {
    MoveKeepsHands(p, Install(p), p.mid.b.items, InMid, InLocal(p.mid.t));
  }

  lemma PublishHands(p: Pool, t: nat)
    requires PoolOk(p) && t in p.locals
    ensures Mine(p, Publish(p, t), t) && HandsKept(p, Publish(p, t))
  {
    assert LocalOk(p, t);
    MoveKeepsHands(p, Publish(p, t), p.locals[t].list, InLocal(t), InGlobal);
  }

  lemma HeadHands(p: Pool, p': Pool, t: nat, to: Place)
    requires PoolOk(p) && t in p.locals && p.locals[t].list != [] && p'.owner == Move(p, [p.locals[t].list[0]], to)
    ensures HandsKept(p, p')
  {
    assert LocalOk(p, t) && At(p, p.locals[t].list[0], InLocal(t));
    MoveKeepsHands(p, p', [p.locals[t].list[0]], InLocal(t), to);
  }

  /** Put together the invariant after a step of thread t. */
  lemma Assemble(m: Machine, m': Machine, t: nat)
    requires MachineOk(m) && Known(m, t) && t in m'.pc && m'.pc == m.pc[t := m'.pc[t]]
    requires PoolOk(m'.pk) && PoolOk(m'.bf) && Mine(m.pk, m'.pk, t) && Mine(m.bf, m'.bf, t)
    requires m'.lock == m.lock || (m.lock == None && m'.lock == Some(t)) || (m.lock == Some(t) && m'.lock == None)
    requires t in m'.pk.locals && t in m'.bf.locals && ThreadOk(m', t)
    requires m'.lock == None || m'.lock == Some(t) ==> MidsOk(m')
    requires m'.lock.Some? && m'.lock != Some(t) ==> m'.pk.mid == m.pk.mid && m'.bf.mid == m.bf.mid
    ensures MachineOk(m')
  {
    hide PoolOk;
    forall u | u in m'.pc ensures ThreadOk(m', u) {
      if u != t { assert ThreadOk(m, u); }
    }
  }

  lemma StepSelf(p: Pool, t: nat)
    ensures Mine(p, p, t) && HandsKept(p, p)
  {
  }

  /** Facts about the thread that moves, and about its two lists. */
  lemma Mover(m: Machine, t: nat)
    requires MachineOk(m) && Known(m, t)
    ensures ThreadOk(m, t) && MidsOk(m) && PoolOk(m.pk) && PoolOk(m.bf)
    ensures |m.pk.locals[t].list| <= POOL_SIZE && |m.bf.locals[t].list| <= POOL_SIZE
    ensures m.pk.mid != Published(t) && m.pk.mid != Deleting(t) ==> m.pk.locals[t].count == |m.pk.locals[t].list|
    ensures m.bf.mid != Published(t) && m.bf.mid != Deleting(t) ==> m.bf.locals[t].count == |m.bf.locals[t].list|
    ensures m.pk.mid == Published(t) ==> m.pk.locals[t].list == []
    ensures m.bf.mid == Published(t) ==> m.bf.locals[t].list == []
    ensures m.lock != Some(t) ==> (m.pk.mid != Rest ==> m.pk.mid.t != t) && (m.bf.mid != Rest ==> m.bf.mid.t != t)
  {
    assert LocalOk(m.pk, t) && LocalOk(m.bf, t);
  }

  lemma EnterOk(m: Machine, t: nat)
    requires MachineOk(m) && t !in m.pc
    ensures MachineOk(m.(pk := Join(m.pk, t), bf := Join(m.bf, t), pc := m.pc[t := Idle]))
  {
    hide PoolOk;
    var m' := m.(pk := Join(m.pk, t), bf := Join(m.bf, t), pc := m.pc[t := Idle]);
    JoinOk(m.pk, t);
    JoinOk(m.bf, t);
    forall u | u in m'.pc ensures ThreadOk(m', u) {
      if u != t { EnterKeepsThread(m, t, u); }
    }
  }

  lemma EnterKeepsThread(m: Machine, t: nat, u: nat)
    requires u != t && u in m.pc && u in m.pk.locals && u in m.bf.locals && ThreadOk(m, u)
    ensures ThreadOk(m.(pk := Join(m.pk, t), bf := Join(m.bf, t), pc := m.pc[t := Idle]), u)
  {
  }

  /** The packet pool takes a step, the thread moves on. */
  lemma PacketStep(m: Machine, t: nat, p: Pool, pc: PC)
    requires MachineOk(m) && Known(m, t) && PoolOk(p) && Mine(m.pk, p, t)
    requires m.lock == Some(t) || p.mid == m.pk.mid
    requires var m' := Goto(m.(pk := p), t, pc); t in p.locals && ThreadOk(m', t)
    requires m.lock == Some(t) ==> PacketMid(p, t, pc) && BufferMid(m.bf, t, pc)
    ensures MachineOk(Goto(m.(pk := p), t, pc))
  {
    hide PoolOk, At, Mine;
    StepSelf(m.bf, t);
    Assemble(m, Goto(m.(pk := p), t, pc), t);
  }

  lemma BufferStep(m: Machine, t: nat, p: Pool, pc: PC)
    requires MachineOk(m) && Known(m, t) && PoolOk(p) && Mine(m.bf, p, t)
    requires m.lock == Some(t) || p.mid == m.bf.mid
    requires var m' := Goto(m.(bf := p), t, pc); t in p.locals && ThreadOk(m', t)
    requires m.lock == Some(t) ==> BufferMid(p, t, pc) && PacketMid(m.pk, t, pc)
    ensures MachineOk(Goto(m.(bf := p), t, pc))
  {
    hide PoolOk, At, Mine;
    StepSelf(m.pk, t);
    Assemble(m, Goto(m.(bf := p), t, pc), t);
  }

  /** Neither pool changes. */
  lemma PlainStep(m: Machine, t: nat, lock: Option<nat>, pc: PC)
    requires MachineOk(m) && Known(m, t)
    requires lock == m.lock || (m.lock == None && lock == Some(t)) || (m.lock == Some(t) && lock == None)
    requires ThreadOk(Goto(m.(lock := lock), t, pc), t)
    requires lock == Some(t) ==> PacketMid(m.pk, t, pc) && BufferMid(m.bf, t, pc)
    requires lock == None ==> m.pk.mid == Rest && m.bf.mid == Rest
    ensures MachineOk(Goto(m.(lock := lock), t, pc))
  {
    hide PoolOk, At;
    StepSelf(m.pk, t);
    StepSelf(m.bf, t);
    Assemble(m, Goto(m.(lock := lock), t, pc), t);
  }

  lemma CarryMine(p: Pool, x: nat, to: Place, t: nat)
    requires x in p.owner && (p.owner[x] == Live || p.owner[x] == InFlight(t))
    ensures Mine(p, Carry(p, x, to), t)
  {
  }

  lemma StartPacketOk(m: Machine, t: nat, p: nat, pc: PC)
    requires MachineOk(m) && Known(m, t) && m.pc[t] == Idle && At(m.pk, p, Live)
    requires pc == RecLock(p, None) || (pc == RecPush(p, None) && !Full(m.pk, t))
    ensures MachineOk(Goto(m.(pk := Carry(m.pk, p, InFlight(t))), t, pc))
  {
    hide PoolOk, MachineOk, Move;
    Mover(m, t);
    NotFullHasRoom(m, t);
    CarryOk(m.pk, p, InFlight(t));
    CarryMine(m.pk, p, InFlight(t), t);
    CarryLocals(m.pk, p, InFlight(t));
    PacketStep(m, t, Carry(m.pk, p, InFlight(t)), pc);
  }

  lemma StartBufferOk(m: Machine, t: nat, p: nat, b: nat, pc: PC)
    requires MachineOk(m) && Known(m, t) && At(m.bf, b, Live)
    requires m.pc[t] == RecLock(p, None) || m.pc[t] == RecPush(p, None)
    requires pc == RecLock(p, Some(b)) || (pc == RecPush(p, Some(b)) && m.pc[t] == RecPush(p, None) && !Full(m.bf, t))
    ensures MachineOk(Goto(m.(bf := Carry(m.bf, b, InFlight(t))), t, pc))
  {
    hide PoolOk, MachineOk, Move;
    Mover(m, t);
    NotFullHasRoom(m, t);
    CarryOk(m.bf, b, InFlight(t));
    CarryMine(m.bf, b, InFlight(t), t);
    CarryLocals(m.bf, b, InFlight(t));
    BufferStep(m, t, Carry(m.bf, b, InFlight(t)), pc);
  }

  lemma StartRecycleOk(m: Machine, t: nat, p: nat, d: Option<nat>)
    requires MachineOk(m) && Enabled(m, StartRecycle(t, p, d))
    ensures MachineOk(Next(m, StartRecycle(t, p, d)))
  {
    hide MachineOk, Carry;
    var first := if Full(m.pk, t) || (d.Some? && Full(m.bf, t)) then RecLock(p, None) else RecPush(p, None);
    StartPacketOk(m, t, p, first);
    if d.Some? {
      var m1 := Goto(m.(pk := Carry(m.pk, p, InFlight(t))), t, first);
      CarryLocals(m.pk, p, InFlight(t));
      var pc' := if first.RecLock? then RecLock(p, d) else RecPush(p, d);
      StartBufferOk(m1, t, p, d.value, pc');
      assert m1.pc[t := pc'] == m.pc[t := pc'];
    }
  }

  // ----- pool_allocate ------------------------------------------------------

  lemma AllocPOk(m: Machine, t: nat, wd: bool)
    requires MachineOk(m) && Known(m, t) && m.pc[t] == AllocP(wd) && Starved(m.pk, t)
    ensures MachineOk(Goto(m.(pk := Unlink(m.pk, t)), t, AllocP2(wd)))
  {
    hide PoolOk, MachineOk, Move;
    Mover(m, t);
    UnlinkOk(m.pk, t);
    UnlinkHands(m.pk, t);
    PacketStep(m, t, Unlink(m.pk, t), AllocP2(wd));
  }

  lemma AllocP2Ok(m: Machine, t: nat, wd: bool)
    requires MachineOk(m) && Known(m, t) && m.pc[t] == AllocP2(wd)
    ensures m.pk.mid.Unlinked? && MachineOk(Goto(m.(pk := CountDown(m.pk)), t, AllocP3(wd)))
  {
    hide PoolOk;
    Mover(m, t);
    CountDownOk(m.pk);
    PacketStep(m, t, CountDown(m.pk), AllocP3(wd));
  }

  lemma AllocP3Ok(m: Machine, t: nat, wd: bool)
    requires MachineOk(m) && Known(m, t) && m.pc[t] == AllocP3(wd)
    ensures m.pk.mid.Counted? && MachineOk(Goto(m.(pk := Install(m.pk)), t, AllocD(wd)))
  {
    hide PoolOk, MachineOk, Move;
    Mover(m, t);
    InstallOk(m.pk);
    InstallHands(m.pk);
    PacketStep(m, t, Install(m.pk), AllocD(wd));
  }

  lemma AllocDOk(m: Machine, t: nat, wd: bool)
    requires MachineOk(m) && Known(m, t) && m.pc[t] == AllocD(wd) && Starved(m.bf, t)
    ensures MachineOk(Goto(m.(bf := Unlink(m.bf, t)), t, AllocD2(wd)))
  {
    hide PoolOk, MachineOk, Move;
    Mover(m, t);
    UnlinkOk(m.bf, t);
    UnlinkHands(m.bf, t);
    BufferStep(m, t, Unlink(m.bf, t), AllocD2(wd));
  }

  lemma AllocD2Ok(m: Machine, t: nat, wd: bool)
    requires MachineOk(m) && Known(m, t) && m.pc[t] == AllocD2(wd)
    ensures m.bf.mid.Unlinked? && MachineOk(Goto(m.(bf := CountDown(m.bf)), t, AllocD3(wd)))
  {
    hide PoolOk;
    Mover(m, t);
    CountDownOk(m.bf);
    BufferStep(m, t, CountDown(m.bf), AllocD3(wd));
  }

  lemma AllocD3Ok(m: Machine, t: nat, wd: bool)
    requires MachineOk(m) && Known(m, t) && m.pc[t] == AllocD3(wd)
    ensures m.bf.mid.Counted? && MachineOk(Goto(m.(bf := Install(m.bf)), t, AllocUnlock(wd)))
  {
    hide PoolOk, MachineOk, Move;
    Mover(m, t);
    InstallOk(m.bf);
    InstallHands(m.bf);
    BufferStep(m, t, Install(m.bf), AllocUnlock(wd));
  }

  lemma HeadInHand(p: Pool, t: nat)
    requires PoolOk(p) && t in p.locals && p.locals[t].list != []
    ensures p.locals[t].list[0] in p.owner && At(Take(p, t), p.locals[t].list[0], InFlight(t)) && Mine(p, Take(p, t), t)
    ensures HandsKept(p, Take(p, t))
  {
    assert LocalOk(p, t) && At(p, p.locals[t].list[0], InLocal(t));
    HeadHands(p, Take(p, t), t, InFlight(t));
  }

  lemma NewInHand(p: Pool, t: nat, x: nat)
    requires x !in p.owner
    ensures Mine(p, New(p, t, x), t) && At(New(p, t, x), x, InFlight(t))
  {
  }

  lemma AllocTakeOk(m: Machine, t: nat, wd: bool)
    requires MachineOk(m) && Known(m, t) && m.pc[t] == AllocTake(wd) && m.pk.locals[t].list != []
    ensures MachineOk(Goto(m.(pk := Take(m.pk, t)), t, AllocData(m.pk.locals[t].list[0], wd)))
  {
    hide PoolOk, MachineOk, Move;
    Mover(m, t);
    TakeOk(m.pk, t);
    HeadInHand(m.pk, t);
    PacketStep(m, t, Take(m.pk, t), AllocData(m.pk.locals[t].list[0], wd));
  }

  lemma AllocNewOk(m: Machine, t: nat, wd: bool, x: nat)
    requires MachineOk(m) && Known(m, t) && m.pc[t] == AllocTake(wd) && x !in m.pk.owner
    ensures MachineOk(Goto(m.(pk := New(m.pk, t, x)), t, AllocData(x, wd)))
  {
    hide PoolOk, MachineOk, Move;
    Mover(m, t);
    NewOk(m.pk, t, x);
    NewInHand(m.pk, t, x);
    PacketStep(m, t, New(m.pk, t, x), AllocData(x, wd));
  }

  /** The packet in hand goes out, with or without a buffer. */
  lemma AllocDataOk(m: Machine, t: nat, p: nat, wd: bool, to: Place)
    requires MachineOk(m) && Known(m, t) && m.pc[t] == AllocData(p, wd) && (to == Live || to == Deleted)
    ensures MachineOk(Goto(m.(pk := Carry(m.pk, p, to)), t, Idle))
  {
    hide PoolOk, MachineOk, Move;
    Mover(m, t);
    CarryOk(m.pk, p, to);
    CarryMine(m.pk, p, to, t);
    PacketStep(m, t, Carry(m.pk, p, to), Idle);
  }

  lemma MineTwice(a: Pool, b: Pool, c: Pool, t: nat)
    requires Mine(a, b, t) && Mine(b, c, t)
    ensures Mine(a, c, t)
  {
  }

  /** An idle thread hands out a buffer, from its list or a new one. */
  lemma IdleBufferOk(m: Machine, t: nat, x: nat)
    requires MachineOk(m) && Known(m, t) && m.pc[t] == Idle && x !in m.bf.owner
    ensures m.bf.locals[t].list != [] ==> MachineOk(m.(bf := Carry(Take(m.bf, t), m.bf.locals[t].list[0], Live)))
    ensures MachineOk(m.(bf := Carry(New(m.bf, t, x), x, Live)))
  {
    hide PoolOk, MachineOk, Move;
    Mover(m, t);
    assert Goto(m, t, Idle) == m;
    if m.bf.locals[t].list != [] {
      var b, taken := m.bf.locals[t].list[0], Take(m.bf, t);
      TakeOk(m.bf, t);
      HeadInHand(m.bf, t);
      CarryOk(taken, b, Live);
      CarryMine(taken, b, Live, t);
      MineTwice(m.bf, taken, Carry(taken, b, Live), t);
      BufferStep(m, t, Carry(taken, b, Live), Idle);
      assert m.(bf := Carry(taken, b, Live)) == Goto(m.(bf := Carry(taken, b, Live)), t, Idle);
    }
    var made := New(m.bf, t, x);
    NewOk(m.bf, t, x);
    NewInHand(m.bf, t, x);
    CarryOk(made, x, Live);
    CarryMine(made, x, Live, t);
    MineTwice(m.bf, made, Carry(made, x, Live), t);
    BufferStep(m, t, Carry(made, x, Live), Idle);
    assert m.(bf := Carry(made, x, Live)) == Goto(m.(bf := Carry(made, x, Live)), t, Idle);
  }

  // ----- recycle ------------------------------------------------------------

  lemma NotFullHasRoom(m: Machine, t: nat)
    requires MachineOk(m) && Known(m, t)
    ensures (m.pk.mid == Rest || m.lock != Some(t)) && !Full(m.pk, t) ==> m.pk.locals[t].count < POOL_SIZE
    ensures (m.bf.mid == Rest || m.lock != Some(t)) && !Full(m.bf, t) ==> m.bf.locals[t].count < POOL_SIZE
  {
    hide PoolOk;
    Mover(m, t);
  }

  lemma BatchLimit(p: Pool)
    requires PoolOk(p) && p.mid == Rest
    ensures p.batchCount <= GLOBAL_COUNT
  {
  }

  lemma PublishShape(p: Pool, t: nat)
    requires t in p.locals
    ensures Publish(p, t).mid == Published(t) && t in Publish(p, t).locals
  {
  }

  lemma RecPublishOk(m: Machine, t: nat, p: nat, d: Option<nat>)
    requires MachineOk(m) && Known(m, t) && m.pc[t] == RecP(p, d) && Full(m.pk, t) && m.pk.batchCount != GLOBAL_COUNT
    ensures MachineOk(Goto(m.(pk := Publish(m.pk, t)), t, RecP2(p, d)))
  {
    hide PoolOk, MachineOk, Move, Publish, At;
    Mover(m, t);
    BatchLimit(m.pk);
    PublishShape(m.pk, t);
    PublishOk(m.pk, t);
    PublishHands(m.pk, t);
    PacketStep(m, t, Publish(m.pk, t), RecP2(p, d));
  }

  lemma RecP2Ok(m: Machine, t: nat, p: nat, d: Option<nat>)
    requires MachineOk(m) && Known(m, t) && m.pc[t] == RecP2(p, d)
    ensures m.pk.mid == Published(t) && MachineOk(Goto(m.(pk := CountUp(m.pk)), t, RecD(p, d)))
  {
    hide PoolOk;
    Mover(m, t);
    CountUpOk(m.pk);
    PacketStep(m, t, CountUp(m.pk), RecD(p, d));
  }

  lemma DeleteHands(p: Pool, t: nat)
    requires PoolOk(p) && t in p.locals && p.locals[t].list != []
    ensures Mine(p, DeleteOne(p, t), t) && HandsKept(p, DeleteOne(p, t))
  {
    HeadHands(p, DeleteOne(p, t), t, Deleted);
  }

  lemma RecPDelOk(m: Machine, t: nat, p: nat, d: Option<nat>)
    requires MachineOk(m) && Known(m, t) && m.pc[t] == RecPDel(p, d)
    ensures if m.pk.locals[t].list != [] then MachineOk(m.(pk := DeleteOne(m.pk, t)))
            else m.pk.mid == Deleting(t) && MachineOk(Goto(m.(pk := EndDelete(m.pk)), t, RecD(p, d)))
  {
    hide PoolOk, MachineOk, Move;
    Mover(m, t);
    if m.pk.locals[t].list != [] {
      DeleteOneOk(m.pk, t);
      DeleteHands(m.pk, t);
      PacketStep(m, t, DeleteOne(m.pk, t), RecPDel(p, d));
      assert m.(pk := DeleteOne(m.pk, t)) == Goto(m.(pk := DeleteOne(m.pk, t)), t, RecPDel(p, d));
    } else {
      EndDeleteOk(m.pk);
      PacketStep(m, t, EndDelete(m.pk), RecD(p, d));
    }
  }

  lemma RecDPublishOk(m: Machine, t: nat, p: nat, d: Option<nat>)
    requires MachineOk(m) && Known(m, t) && m.pc[t] == RecD(p, d) && Full(m.bf, t) && m.bf.batchCount != GLOBAL_COUNT
    ensures MachineOk(Goto(m.(bf := Publish(m.bf, t)), t, RecD2(p, d)))
  {
    hide PoolOk, MachineOk, Move, Publish, At;
    Mover(m, t);
    BatchLimit(m.bf);
    PublishShape(m.bf, t);
    PublishOk(m.bf, t);
    PublishHands(m.bf, t);
    BufferStep(m, t, Publish(m.bf, t), RecD2(p, d));
  }

  lemma RecD2Ok(m: Machine, t: nat, p: nat, d: Option<nat>)
    requires MachineOk(m) && Known(m, t) && m.pc[t] == RecD2(p, d)
    ensures m.bf.mid == Published(t) && MachineOk(Goto(m.(bf := CountUp(m.bf)), t, RecUnlock(p, d)))
  {
    hide PoolOk;
    Mover(m, t);
    CountUpOk(m.bf);
    BufferStep(m, t, CountUp(m.bf), RecUnlock(p, d));
  }

  lemma RecDDelOk(m: Machine, t: nat, p: nat, d: Option<nat>)
    requires MachineOk(m) && Known(m, t) && m.pc[t] == RecDDel(p, d)
    ensures if m.bf.locals[t].list != [] then MachineOk(m.(bf := DeleteOne(m.bf, t)))
            else m.bf.mid == Deleting(t) && MachineOk(Goto(m.(bf := EndDelete(m.bf)), t, RecUnlock(p, d)))
  {
    hide PoolOk, MachineOk, Move;
    Mover(m, t);
    if m.bf.locals[t].list != [] {
      DeleteOneOk(m.bf, t);
      DeleteHands(m.bf, t);
      BufferStep(m, t, DeleteOne(m.bf, t), RecDDel(p, d));
      assert m.(bf := DeleteOne(m.bf, t)) == Goto(m.(bf := DeleteOne(m.bf, t)), t, RecDDel(p, d));
    } else {
      EndDeleteOk(m.bf);
      BufferStep(m, t, EndDelete(m.bf), RecUnlock(p, d));
    }
  }

  lemma PushMine(p: Pool, t: nat, x: nat)
    requires t in p.locals && At(p, x, InFlight(t))
    ensures Mine(p, Push(p, t, x), t) && Push(p, t, x).mid == p.mid && t in Push(p, t, x).locals
  {
  }

  lemma PushBufferOk(m: Machine, t: nat, p: nat, b: nat)
    requires MachineOk(m) && Known(m, t) && m.pc[t] == RecPush(p, Some(b))
    ensures MachineOk(Goto(m.(bf := Push(m.bf, t, b)), t, RecPush(p, None)))
    ensures Push(m.bf, t, b).locals[t].count <= POOL_SIZE
  {
    hide PoolOk, MachineOk, Move, Push, At;
    Mover(m, t);
    PushOk(m.bf, t, b);
    PushMine(m.bf, t, b);
    BufferStep(m, t, Push(m.bf, t, b), RecPush(p, None));
  }

  lemma PushPacketOk(m: Machine, t: nat, p: nat)
    requires MachineOk(m) && Known(m, t) && m.pc[t] == RecPush(p, None)
    ensures MachineOk(Goto(m.(pk := Push(m.pk, t, p)), t, Idle))
    ensures Push(m.pk, t, p).locals[t].count <= POOL_SIZE
  {
    hide PoolOk, MachineOk, Move, Push, At;
    Mover(m, t);
    PushOk(m.pk, t, p);
    PushMine(m.pk, t, p);
    PacketStep(m, t, Push(m.pk, t, p), Idle);
  }

  /** The final pushes: both counts end at most at the limit, as asserted. */
  lemma RecPushOk(m: Machine, t: nat, p: nat, d: Option<nat>)
    requires MachineOk(m) && Known(m, t) && m.pc[t] == RecPush(p, d)
    ensures var bf' := if d.Some? then Push(m.bf, t, d.value) else m.bf;
            MachineOk(Goto(m.(pk := Push(m.pk, t, p), bf := bf'), t, Idle))
    ensures Push(m.pk, t, p).locals[t].count <= POOL_SIZE
    ensures d.Some? ==> Push(m.bf, t, d.value).locals[t].count <= POOL_SIZE
  {
    hide MachineOk, Move;
    var m1 := m;
    if d.Some? {
      PushBufferOk(m, t, p, d.value);
      m1 := Goto(m.(bf := Push(m.bf, t, d.value)), t, RecPush(p, None));
    }
    PushPacketOk(m1, t, p);
    assert m1.pc[t := Idle] == m.pc[t := Idle];
  }

  // ----- Every step, every run ----------------------------------------------

  /** The last step of an allocation: the packet goes out with its buffer, without
      one, or not at all. */
  lemma AllocFinishOk(m: Machine, t: nat, p: nat, wd: bool, x: nat)
    requires MachineOk(m) && Known(m, t) && m.pc[t] == AllocData(p, wd) && x !in m.bf.owner
    ensures var done := Goto(m.(pk := Carry(m.pk, p, Live)), t, Idle);
            && MachineOk(done) && MachineOk(done.(bf := Carry(New(m.bf, t, x), x, Live)))
            && (m.bf.locals[t].list != [] ==>
                  MachineOk(done.(bf := Carry(Take(m.bf, t), m.bf.locals[t].list[0], Live))))
    ensures MachineOk(Goto(m.(pk := Carry(m.pk, p, Deleted)), t, Idle))
  {
    hide PoolOk, MachineOk, Take, New, At;
    AllocDataOk(m, t, p, wd, Live);
    AllocDataOk(m, t, p, wd, Deleted);
    IdleBufferOk(Goto(m.(pk := Carry(m.pk, p, Live)), t, Idle), t, x) by { CarryLocals(m.pk, p, Live); }
  }

  lemma AllocStepOk(m: Machine, t: nat, x: nat, ok: bool)
    requires MachineOk(m) && Enabled(m, Advance(t, x, ok)) && !Recycling(m.pc[t])
    ensures MachineOk(Next(m, Advance(t, x, ok)))
  {
    hide PoolOk, MachineOk, Unlink, CountDown, Install, Take, New, Carry, At;
    Mover(m, t);
    match m.pc[t] {
      case AllocLock(wd) => if m.lock == None { PlainStep(m, t, Some(t), AllocP(wd)); }
      case AllocP(wd) => if Starved(m.pk, t) { AllocPOk(m, t, wd); } else { PlainStep(m, t, m.lock, AllocD(wd)); }
      case AllocP2(wd) => AllocP2Ok(m, t, wd);
      case AllocP3(wd) => AllocP3Ok(m, t, wd);
      case AllocD(wd) =>
        if wd && Starved(m.bf, t) { AllocDOk(m, t, wd); } else { PlainStep(m, t, m.lock, AllocUnlock(wd)); }
      case AllocD2(wd) => AllocD2Ok(m, t, wd);
      case AllocD3(wd) => AllocD3Ok(m, t, wd);
      case AllocUnlock(wd) => PlainStep(m, t, None, AllocTake(wd));
      case AllocTake(wd) =>
        if m.pk.locals[t].list != [] { AllocTakeOk(m, t, wd); }
        else if ok { AllocNewOk(m, t, wd, x); }
        else { PlainStep(m, t, m.lock, Idle); }
      case AllocData(p, wd) => AllocFinishOk(m, t, p, wd, x);
    }
  }

  lemma CarryLocals(p: Pool, x: nat, to: Place)
    ensures Carry(p, x, to).locals == p.locals && Carry(p, x, to).mid == p.mid
  {
  }

  lemma RecPOk(m: Machine, t: nat, p: nat, d: Option<nat>)
    requires MachineOk(m) && Known(m, t) && m.pc[t] == RecP(p, d)
    ensures !Full(m.pk, t) ==> MachineOk(Goto(m, t, RecD(p, d)))
    ensures Full(m.pk, t) ==>
              MachineOk(if m.pk.batchCount == GLOBAL_COUNT then Goto(m, t, RecPDel(p, d))
                        else Goto(m.(pk := Publish(m.pk, t)), t, RecP2(p, d)))
  {
    hide PoolOk, MachineOk, Publish, At;
    Mover(m, t);
    if !Full(m.pk, t) { PlainStep(m, t, m.lock, RecD(p, d)); }
    else if m.pk.batchCount == GLOBAL_COUNT { PlainStep(m, t, m.lock, RecPDel(p, d)); }
    else { RecPublishOk(m, t, p, d); }
  }

  lemma RecDOk(m: Machine, t: nat, p: nat, d: Option<nat>)
    requires MachineOk(m) && Known(m, t) && m.pc[t] == RecD(p, d)
    ensures d == None || !Full(m.bf, t) ==> MachineOk(Goto(m, t, RecUnlock(p, d)))
    ensures d != None && Full(m.bf, t) ==>
              MachineOk(if m.bf.batchCount == GLOBAL_COUNT then Goto(m, t, RecDDel(p, d))
                        else Goto(m.(bf := Publish(m.bf, t)), t, RecD2(p, d)))
  {
    hide PoolOk, MachineOk, Publish, At;
    Mover(m, t);
    if d == None || !Full(m.bf, t) { PlainStep(m, t, m.lock, RecUnlock(p, d)); }
    else if m.bf.batchCount == GLOBAL_COUNT { PlainStep(m, t, m.lock, RecDDel(p, d)); }
    else { RecDPublishOk(m, t, p, d); }
  }

  lemma RecycleStepOk(m: Machine, t: nat, x: nat, ok: bool)
    requires MachineOk(m) && Enabled(m, Advance(t, x, ok)) && Recycling(m.pc[t])
    ensures MachineOk(Next(m, Advance(t, x, ok)))
  {
    hide PoolOk, MachineOk, Publish, CountUp, DeleteOne, EndDelete, Push, At, Full;
    Mover(m, t);
    NotFullHasRoom(m, t);
    match m.pc[t] {
      case RecLock(p, d) => if m.lock == None { PlainStep(m, t, Some(t), RecP(p, d)); }
      case RecP(p, d) => RecPOk(m, t, p, d);
      case RecP2(p, d) => RecP2Ok(m, t, p, d);
      case RecPDel(p, d) => RecPDelOk(m, t, p, d);
      case RecD(p, d) => RecDOk(m, t, p, d);
      case RecD2(p, d) => RecD2Ok(m, t, p, d);
      case RecDDel(p, d) => RecDDelOk(m, t, p, d);
      case RecUnlock(p, d) => PlainStep(m, t, None, RecPush(p, d));
      case RecPush(p, d) => RecPushOk(m, t, p, d);
    }
  }

  lemma StartAllocOk(m: Machine, t: nat, wd: bool)
    requires MachineOk(m) && Enabled(m, StartAlloc(t, wd))
    ensures MachineOk(Next(m, StartAlloc(t, wd)))
  {
    hide PoolOk, MachineOk, At;
    Mover(m, t);
    PlainStep(m, t, m.lock, if Starved(m.pk, t) || (wd && Starved(m.bf, t)) then AllocLock(wd) else AllocTake(wd));
  }

  lemma NextOk(m: Machine, l: Label)
    requires MachineOk(m) && Enabled(m, l)
    ensures MachineOk(Next(m, l))
  {
    hide PoolOk, MachineOk, Join, Carry;
    match l {
      case Enter(t) => EnterOk(m, t);
      case StartAlloc(t, wd) => StartAllocOk(m, t, wd);
      case StartRecycle(t, p, d) => StartRecycleOk(m, t, p, d);
      case Advance(t, x, ok) => if Recycling(m.pc[t]) { RecycleStepOk(m, t, x, ok); } else { AllocStepOk(m, t, x, ok); }
    }
  }

  /** Where an interleaving of the threads' steps leads, if it is possible. */
  function After(run: seq<Label>): Option<Machine> {
    if run == [] then Some(INIT)
    else
      var before, l := After(run[..|run| - 1]), run[|run| - 1];
      if before.Some? && Enabled(before.value, l) then Some(Next(before.value, l)) else None
  }

  lemma {:induction false} ReachableOk(run: seq<Label>)
    requires After(run).Some?
    ensures MachineOk(After(run).value)
    decreases |run|
  {
    if run != [] {
      var front := run[..|run| - 1];
      ReachableOk(front);
      NextOk(After(front).value, run[|run| - 1]);
    }
  }

  /** The limits, in every reachable state. */
  lemma ReachableLimits(m: Machine, run: seq<Label>, t: nat)
    requires After(run) == Some(m) && t in m.pc
    ensures Known(m, t)
    ensures |m.pk.locals[t].list| <= POOL_SIZE && |m.bf.locals[t].list| <= POOL_SIZE
    ensures |m.pk.batches| <= GLOBAL_COUNT && |m.bf.batches| <= GLOBAL_COUNT
    ensures m.lock != Some(t) ==>
              m.pk.locals[t].count == |m.pk.locals[t].list| && m.bf.locals[t].count == |m.bf.locals[t].list|
    ensures m.lock == None ==> m.pk.batchCount == |m.pk.batches| && m.bf.batchCount == |m.bf.batches|
  {
    ReachableOk(run);
    Mover(m, t);
  }

  /** A free packet object is in one list, once: two positions that hold it are
      the same position.  A list is named by its thread, or by Right(batch). */
  datatype Where = Left(t: nat) | Right(batch: nat)

  ghost function ListAt(p: Pool, w: Where): seq<nat> {
    match w
    case Left(t) => if t in p.locals then p.locals[t].list else []
    case Right(i) => if i < |p.batches| then p.batches[i].items else []
  }

  lemma OnePlace(p: Pool, v: Where, i: nat, w: Where, j: nat)
    requires PoolOk(p) && i < |ListAt(p, v)| && j < |ListAt(p, w)| && ListAt(p, v)[i] == ListAt(p, w)[j]
    ensures v == w && i == j
    ensures p.owner[ListAt(p, v)[i]] != Live
  {
    match v {
      case Left(t) => assert LocalOk(p, t) && At(p, ListAt(p, v)[i], InLocal(t));
      case Right(k) => assert BatchOk(p, p.batches[k], InGlobal) && At(p, ListAt(p, v)[i], InGlobal);
    }
    match w {
      case Left(t) => assert LocalOk(p, t) && At(p, ListAt(p, w)[j], InLocal(t));
      case Right(k) => assert BatchOk(p, p.batches[k], InGlobal) && At(p, ListAt(p, w)[j], InGlobal);
    }
    assert ListAt(p, v)[i] in ListAt(p, v) && ListAt(p, w)[j] in ListAt(p, w);
  }

  // ----- Cleanup ------------------------------------------------------------

  /** cleanup_pool: delete both lists, check the counts.  The counts of a batch
      (`global`) are not compared. */
  method CleanupPool(p: seq<nat>, pcount: int, pd: seq<nat>, pdcount: int, global: bool)
    returns (deletedP: seq<nat>, deletedD: seq<nat>)
    requires |p| <= POOL_SIZE && |pd| <= POOL_SIZE && (global || (pcount == |p| && pdcount == |pd|))
    ensures deletedP == p && deletedD == pd
  {
    var np, nd := 0, 0;
    deletedP, deletedD := [], [];
    var rest := p;
    while rest != []
      invariant deletedP + rest == p && np == |deletedP|
      decreases |rest|
    {
      np := np + 1;
      deletedP, rest := deletedP + [rest[0]], rest[1..];
    }
    rest := pd;
    while rest != []
      invariant deletedD + rest == pd && nd == |deletedD|
      decreases |rest|
    {
      nd := nd + 1;
      deletedD, rest := deletedD + [rest[0]], rest[1..];
    }
    assert np <= POOL_SIZE && nd <= POOL_SIZE;
    assert global || (np == pcount && nd == pdcount);
  }

  /** The free objects among the lists of some threads and the first batches. */
  ghost predicate Collected(p: Pool, threads: set<nat>, batches: nat, out: seq<nat>) {
    Distinct(out) && forall x :: x in out <==> Covered(p, threads, batches, x)
  }

  ghost predicate Covered(p: Pool, threads: set<nat>, batches: nat, x: nat) {
    && x in p.owner
    && ((p.owner[x].InLocal? && p.owner[x].t in threads)
        || exists i :: 0 <= i < batches && i < |p.batches| && x in p.batches[i].items)
  }

  lemma CollectLocal(p: Pool, threads: set<nat>, out: seq<nat>, t: nat)
    requires PoolOk(p) && Collected(p, threads, 0, out) && t in p.locals && t !in threads
    ensures Collected(p, threads + {t}, 0, out + p.locals[t].list)
  {
    var l := p.locals[t].list;
    assert LocalOk(p, t);
    forall x ensures x in l <==> x in p.owner && p.owner[x] == InLocal(t) {
      if x in l { var i :| 0 <= i < |l| && l[i] == x; assert At(p, l[i], InLocal(t)); }
      if x in p.owner && p.owner[x] == InLocal(t) { assert PlaceOk(p, x); }
    }
    forall i, j | 0 <= i < j < |out + l| ensures (out + l)[i] != (out + l)[j] {
      if i < |out| <= j { assert (out + l)[i] in out && (out + l)[j] in l; }
    }
  }

  lemma CollectBatch(p: Pool, threads: set<nat>, n: nat, out: seq<nat>)
    requires PoolOk(p) && Collected(p, threads, n, out) && n < |p.batches|
    ensures Collected(p, threads, n + 1, out + p.batches[n].items)
  {
    var l := p.batches[n].items;
    assert BatchOk(p, p.batches[n], InGlobal);
    forall x | x in l ensures x in p.owner && p.owner[x] == InGlobal && x !in out {
      var i :| 0 <= i < |l| && l[i] == x;
      assert At(p, l[i], InGlobal);
    }
    forall i, j | 0 <= i < j < |out + l| ensures (out + l)[i] != (out + l)[j] {
      if i < |out| <= j { assert (out + l)[i] in out && (out + l)[j] in l; }
    }
  }

  lemma CollectedAll(p: Pool, threads: set<nat>, out: seq<nat>, x: nat)
    requires PoolOk(p) && p.mid == Rest && threads == p.locals.Keys && Collected(p, threads, |p.batches|, out)
    ensures x in out <==> x in p.owner && (p.owner[x].InLocal? || p.owner[x].InGlobal?)
  {
    if x in p.owner { assert PlaceOk(p, x); }
    if i :| 0 <= i < |p.batches| && x in p.batches[i].items {
      assert BatchOk(p, p.batches[i], InGlobal);
      var k :| 0 <= k < |p.batches[i].items| && p.batches[i].items[k] == x;
      assert At(p, p.batches[i].items[k], InGlobal);
    }
  }

  /** Packet::static_cleanup once all threads have come to rest: every assertion
      of the source holds, and each pooled object is deleted exactly once. */
  method StaticCleanup(m: Machine, threads: seq<nat>) returns (deletedP: seq<nat>, deletedD: seq<nat>)
    requires MachineOk(m) && m.lock == None
    requires Distinct(threads) && (forall t :: t in threads <==> t in m.pc)
    ensures Distinct(deletedP) && Distinct(deletedD)
    ensures forall x :: x in deletedP <==> x in m.pk.owner && (m.pk.owner[x].InLocal? || m.pk.owner[x].InGlobal?)
    ensures forall x :: x in deletedD <==> x in m.bf.owner && (m.bf.owner[x].InLocal? || m.bf.owner[x].InGlobal?)
  {
    ghost var all := m.pc.Keys;
    AtRest(m);
    hide PoolOk, Collected, Covered;
    deletedP, deletedD := CleanupThreads(m, threads);
    var pb, db := m.pk.batches, m.bf.batches;
    var rounds := m.pk.batchCount;
    if rounds < m.bf.batchCount { rounds := m.bf.batchCount; }
    assert rounds <= GLOBAL_COUNT;
    ghost var np, nd := 0, 0;
    while pb != [] || db != []
      invariant rounds == (if |pb| < |db| then |db| else |pb|)
      invariant 0 <= np <= |m.pk.batches| && pb == m.pk.batches[np..]
      invariant 0 <= nd <= |m.bf.batches| && db == m.bf.batches[nd..]
      invariant Collected(m.pk, all, np, deletedP) && Collected(m.bf, all, nd, deletedD)
      decreases rounds
    {
      var p, d: seq<nat> := [], [];
      if pb != [] {
        CollectBatch(m.pk, all, np, deletedP);
        p, pb, np := pb[0].items, pb[1..], np + 1;
      }
      if db != [] {
        CollectBatch(m.bf, all, nd, deletedD);
        d, db, nd := db[0].items, db[1..], nd + 1;
      }
      var moreP, moreD := CleanupPool(p, 0, d, 0, true);
      assert deletedP + [] == deletedP && deletedD + [] == deletedD;
      deletedP, deletedD := deletedP + moreP, deletedD + moreD;
      rounds := rounds - 1;
    }
    assert rounds == 0;
    Everything(m.pk, all, deletedP);
    Everything(m.bf, all, deletedD);
  }

  lemma AtRest(m: Machine)
    requires MachineOk(m) && m.lock == None
    ensures m.pk.mid == Rest && m.bf.mid == Rest
    ensures m.pk.batchCount == |m.pk.batches| <= GLOBAL_COUNT && m.bf.batchCount == |m.bf.batches| <= GLOBAL_COUNT
    ensures forall i :: 0 <= i < |m.pk.batches| ==> |m.pk.batches[i].items| <= POOL_SIZE
    ensures forall i :: 0 <= i < |m.bf.batches| ==> |m.bf.batches[i].items| <= POOL_SIZE
  {
    BatchSizes(m);
  }

  lemma Everything(p: Pool, threads: set<nat>, out: seq<nat>)
    requires PoolOk(p) && p.mid == Rest && threads == p.locals.Keys && Collected(p, threads, |p.batches|, out)
    ensures Distinct(out)
    ensures forall x :: x in out <==> x in p.owner && (p.owner[x].InLocal? || p.owner[x].InGlobal?)
  {
    forall x ensures x in out <==> x in p.owner && (p.owner[x].InLocal? || p.owner[x].InGlobal?) {
      CollectedAll(p, threads, out, x);
    }
  }

  lemma BatchSizes(m: Machine)
    requires MachineOk(m)
    ensures forall i :: 0 <= i < |m.pk.batches| ==> |m.pk.batches[i].items| <= POOL_SIZE
    ensures forall i :: 0 <= i < |m.bf.batches| ==> |m.bf.batches[i].items| <= POOL_SIZE
  {
    forall i | 0 <= i < |m.pk.batches| ensures |m.pk.batches[i].items| <= POOL_SIZE {
      assert BatchOk(m.pk, m.pk.batches[i], InGlobal);
    }
    forall i | 0 <= i < |m.bf.batches| ensures |m.bf.batches[i].items| <= POOL_SIZE {
      assert BatchOk(m.bf, m.bf.batches[i], InGlobal);
    }
  }

  method CleanupThreads(m: Machine, threads: seq<nat>) returns (deletedP: seq<nat>, deletedD: seq<nat>)
    requires MachineOk(m) && m.lock == None
    requires Distinct(threads) && (forall t :: t in threads <==> t in m.pc)
    ensures Collected(m.pk, m.pc.Keys, 0, deletedP) && Collected(m.bf, m.pc.Keys, 0, deletedD)
  {
    deletedP, deletedD := [], [];
    var i := 0;
    ghost var seen: set<nat> := {};
    hide PoolOk, Collected;
    assert Collected(m.pk, {}, 0, []) && Collected(m.bf, {}, 0, []) by { CollectNone(m.pk); CollectNone(m.bf); }
    while i < |threads|
      invariant 0 <= i <= |threads| && (forall t :: t in seen <==> t in threads[..i])
      invariant Collected(m.pk, seen, 0, deletedP) && Collected(m.bf, seen, 0, deletedD)
    {
      var t := threads[i];
      assert t in threads && t !in threads[..i];
      Mover(m, t);
      CollectLocal(m.pk, seen, deletedP, t);
      CollectLocal(m.bf, seen, deletedD, t);
      var moreP, moreD := CleanupPool(m.pk.locals[t].list, m.pk.locals[t].count,
                                      m.bf.locals[t].list, m.bf.locals[t].count, false);
      deletedP, deletedD := deletedP + moreP, deletedD + moreD;
      seen := seen + {t};
      assert threads[..i + 1] == threads[..i] + [t];
      i := i + 1;
    }
    assert threads[..i] == threads;
    assert seen == m.pc.Keys;
  }

  lemma CollectNone(p: Pool)
    ensures Collected(p, {}, 0, [])
  {
  }
}
