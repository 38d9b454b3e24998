/** SelectSet: which elements wait for which file descriptors (lib/selectset.cc).

    `_pollfds` is the dense array handed to poll(); `_selinfo` is indexed by file
    descriptor and says where in `_pollfds` the descriptor sits.
 */
module SelectSet {
  import opened Wrappers

  datatype Element = Element(id: nat, router: nat)

  /** One struct pollfd; `events` as its POLLIN and POLLOUT bits. */
  datatype Pollfd = Pollfd(fd: int, pollin: bool, pollout: bool)

  datatype SelectorInfo = SelectorInfo(read: Option<Element>, write: Option<Element>, pollfd: int)

  const BLANK := SelectorInfo(None, None, -1)

  // ----- Invariant ----------------------------------------------------------

  /** Entry pi and its descriptor point at each other. */
  ghost predicate LinkedOk(pollfds: seq<Pollfd>, selinfo: seq<SelectorInfo>, pi: nat)
    requires pi < |pollfds|
  {
    0 <= pollfds[pi].fd < |selinfo| && selinfo[pollfds[pi].fd].pollfd == pi
  }

  /** The event bits of entry pi are what is registered, and not none.  The wake-up
      pipe may be polled for reading although no element asked for it. */
  ghost predicate EventsOk(pollfds: seq<Pollfd>, selinfo: seq<SelectorInfo>, wake: int, pi: nat)
    requires pi < |pollfds| && LinkedOk(pollfds, selinfo, pi)
  {
    var p := pollfds[pi];
    && (selinfo[p.fd].read.Some? ==> p.pollin) && (p.pollin ==> selinfo[p.fd].read.Some? || p.fd == wake)
    && p.pollout == selinfo[p.fd].write.Some?
    && (p.pollin || p.pollout)
  }

  /** Descriptor fd points back into the array, or nobody waits for it. */
  ghost predicate InfoOk(pollfds: seq<Pollfd>, selinfo: seq<SelectorInfo>, fd: nat)
    requires fd < |selinfo|
  {
    if selinfo[fd].pollfd < 0 then selinfo[fd] == BLANK
    else selinfo[fd].pollfd < |pollfds| && pollfds[selinfo[fd].pollfd].fd == fd
  }

  /** The wake-up pipe, if there is one, is polled. */
  ghost predicate Waking(pollfds: seq<Pollfd>, selinfo: seq<SelectorInfo>, wake: int) {
    wake >= 0 ==>
      && wake < |selinfo| && 0 <= selinfo[wake].pollfd < |pollfds|
      && pollfds[selinfo[wake].pollfd].fd == wake && pollfds[selinfo[wake].pollfd].pollin
  }

  ghost predicate SetOk(pollfds: seq<Pollfd>, selinfo: seq<SelectorInfo>, wake: int) {
    && (forall pi :: 0 <= pi < |pollfds| ==> LinkedOk(pollfds, selinfo, pi) && EventsOk(pollfds, selinfo, wake, pi))
    && (forall fd :: 0 <= fd < |selinfo| ==> InfoOk(pollfds, selinfo, fd))
  }

  /** The registrations, by descriptor. */
  function Reader(selinfo: seq<SelectorInfo>, fd: int): Option<Element> {
    if 0 <= fd < |selinfo| then selinfo[fd].read else None
  }

  function Writer(selinfo: seq<SelectorInfo>, fd: int): Option<Element> {
    if 0 <= fd < |selinfo| then selinfo[fd].write else None
  }

  /** The two indexes are inverse to each other. */
  lemma MutualInverse(pollfds: seq<Pollfd>, selinfo: seq<SelectorInfo>, wake: int, pi: int, fd: int)
    requires SetOk(pollfds, selinfo, wake)
    ensures (0 <= pi < |pollfds| && pollfds[pi].fd == fd) <==>
        (0 <= fd < |selinfo| && 0 <= pi && selinfo[fd].pollfd == pi)
  {
    if 0 <= pi < |pollfds| { assert LinkedOk(pollfds, selinfo, pi); }
    if 0 <= fd < |selinfo| { assert InfoOk(pollfds, selinfo, fd); }
  }

  /** A descriptor is polled for reading exactly when an element waits to read from
      it, the wake-up pipe apart; likewise for writing. */
  lemma PolledIffRegistered(pollfds: seq<Pollfd>, selinfo: seq<SelectorInfo>, wake: int, fd: int)
    requires SetOk(pollfds, selinfo, wake) && fd != wake
    ensures (exists pi :: 0 <= pi < |pollfds| && pollfds[pi].fd == fd && pollfds[pi].pollin) <==>
        Reader(selinfo, fd).Some?
    ensures (exists pi :: 0 <= pi < |pollfds| && pollfds[pi].fd == fd && pollfds[pi].pollout) <==>
        Writer(selinfo, fd).Some?
  {
    if 0 <= fd < |selinfo| {
      assert InfoOk(pollfds, selinfo, fd);
      var pi := selinfo[fd].pollfd;
      if pi >= 0 { assert EventsOk(pollfds, selinfo, wake, pi); }
    }
    forall pi | 0 <= pi < |pollfds| && pollfds[pi].fd == fd
      ensures 0 <= fd < |selinfo| && selinfo[fd].pollfd == pi
    {
      assert LinkedOk(pollfds, selinfo, pi) && EventsOk(pollfds, selinfo, wake, pi);
    }
  }

  // ----- Registering --------------------------------------------------------

  function Grown(selinfo: seq<SelectorInfo>, n: nat): (r: seq<SelectorInfo>)
    ensures |r| == if n > |selinfo| then n else |selinfo|
    ensures selinfo <= r && forall i :: |selinfo| <= i < |r| ==> r[i] == BLANK
  {
    if n > |selinfo| then selinfo + seq(n - |selinfo|, i => BLANK) else selinfo
  }

  lemma GrownOk(pollfds: seq<Pollfd>, selinfo: seq<SelectorInfo>, wake: int, n: nat)
    requires SetOk(pollfds, selinfo, wake)
    ensures SetOk(pollfds, Grown(selinfo, n), wake)
  {
    var selinfo' := Grown(selinfo, n);
    forall pi | 0 <= pi < |pollfds| ensures LinkedOk(pollfds, selinfo', pi) && EventsOk(pollfds, selinfo', wake, pi) {
      assert LinkedOk(pollfds, selinfo, pi) && EventsOk(pollfds, selinfo, wake, pi);
    }
    forall fd | 0 <= fd < |selinfo'| ensures InfoOk(pollfds, selinfo', fd) {
      assert fd < |selinfo| ==> InfoOk(pollfds, selinfo, fd);
    }
  }

  /** A set that is in order but for descriptor fd: it may be linked with event bits
      that are still to be justified. */
  ghost predicate OpenAt(pollfds: seq<Pollfd>, selinfo: seq<SelectorInfo>, wake: int, fd: int) {
    && 0 <= fd < |selinfo| && 0 <= selinfo[fd].pollfd
    && (forall pi :: 0 <= pi < |pollfds| ==>
          LinkedOk(pollfds, selinfo, pi) && (pollfds[pi].fd == fd || EventsOk(pollfds, selinfo, wake, pi)))
    && (forall g :: 0 <= g < |selinfo| ==> InfoOk(pollfds, selinfo, g))
  }

  /** Giving fd a place in the array. */
  lemma Linked(pollfds: seq<Pollfd>, selinfo: seq<SelectorInfo>, wake: int, fd: nat)
    requires SetOk(pollfds, selinfo, wake) && fd < |selinfo|
    ensures var unset := selinfo[fd].pollfd < 0;
            OpenAt(if unset then pollfds + [Pollfd(fd, false, false)] else pollfds,
                   if unset then selinfo[fd := selinfo[fd].(pollfd := |pollfds|)] else selinfo, wake, fd)
  {
    assert InfoOk(pollfds, selinfo, fd);
    if selinfo[fd].pollfd < 0 {
      var pollfds', selinfo' := pollfds + [Pollfd(fd, false, false)], selinfo[fd := selinfo[fd].(pollfd := |pollfds|)];
      forall pi | 0 <= pi < |pollfds'|
        ensures LinkedOk(pollfds', selinfo', pi) && (pollfds'[pi].fd == fd || EventsOk(pollfds', selinfo', wake, pi))
      {
        if pi < |pollfds| { assert LinkedOk(pollfds, selinfo, pi) && EventsOk(pollfds, selinfo, wake, pi); }
      }
      forall g | 0 <= g < |selinfo'| ensures InfoOk(pollfds', selinfo', g) {
        assert InfoOk(pollfds, selinfo, g);
      }
    }
  }

  lemma BitsOf(pollfds: seq<Pollfd>, selinfo: seq<SelectorInfo>, wake: int, fd: nat)
    requires SetOk(pollfds, selinfo, wake) && fd < |selinfo|
    ensures var pi := selinfo[fd].pollfd;
            if pi < 0 then selinfo[fd] == BLANK
            else
              && pi < |pollfds| && pollfds[pi].fd == fd && pollfds[pi].pollout == selinfo[fd].write.Some?
              && (selinfo[fd].read.Some? ==> pollfds[pi].pollin)
              && (pollfds[pi].pollin ==> selinfo[fd].read.Some? || fd == wake)
  {
    assert InfoOk(pollfds, selinfo, fd);
    if selinfo[fd].pollfd >= 0 { assert EventsOk(pollfds, selinfo, wake, selinfo[fd].pollfd); }
  }

  /** Setting the bits and the elements of fd closes the gap. */
  lemma Closed(pollfds: seq<Pollfd>, selinfo: seq<SelectorInfo>, wake: int, fd: nat, pollin: bool, pollout: bool,
               info: SelectorInfo)
    requires OpenAt(pollfds, selinfo, wake, fd) && info.pollfd == selinfo[fd].pollfd
    requires (info.read.Some? ==> pollin) && (pollin ==> info.read.Some? || fd == wake)
    requires pollout == info.write.Some? && (pollin || pollout)
    ensures selinfo[fd].pollfd < |pollfds|
    ensures SetOk(pollfds[selinfo[fd].pollfd := Pollfd(fd, pollin, pollout)], selinfo[fd := info], wake)
  {
    assert InfoOk(pollfds, selinfo, fd);
    var k := selinfo[fd].pollfd;
    var pollfds', selinfo' := pollfds[k := Pollfd(fd, pollin, pollout)], selinfo[fd := info];
    forall pi | 0 <= pi < |pollfds'|
      ensures LinkedOk(pollfds', selinfo', pi) && EventsOk(pollfds', selinfo', wake, pi)
    {
      assert LinkedOk(pollfds, selinfo, pi);
      if pi != k { assert pollfds[pi].fd != fd && EventsOk(pollfds, selinfo, wake, pi); }
    }
    forall g | 0 <= g < |selinfo'| ensures InfoOk(pollfds', selinfo', g) {
      assert InfoOk(pollfds, selinfo, g);
    }
  }

  // ----- Removing -----------------------------------------------------------

  /** Swapping the last entry into a dropped one. */
  function Dropped(pollfds: seq<Pollfd>, pi: nat): (r: seq<Pollfd>)
    requires pi < |pollfds|
    ensures |r| == |pollfds| - 1
  {
    pollfds[pi := pollfds[|pollfds| - 1]][..|pollfds| - 1]
  }

  /** The links after entry pi is dropped. */
  function Unlinked(pollfds: seq<Pollfd>, selinfo: seq<SelectorInfo>, pi: nat): (r: seq<SelectorInfo>)
    requires pi < |pollfds| && 0 <= pollfds[pi].fd < |selinfo| && 0 <= pollfds[|pollfds| - 1].fd < |selinfo|
    ensures |r| == |selinfo|
    ensures forall g :: 0 <= g < |r| ==> r[g].read == selinfo[g].read && r[g].write == selinfo[g].write
  {
    var fd, moved := pollfds[pi].fd, pollfds[|pollfds| - 1].fd;
    var cut := selinfo[fd := selinfo[fd].(pollfd := -1)];
    if pi < |pollfds| - 1 then cut[moved := cut[moved].(pollfd := pi)] else cut
  }

  lemma DropLinks(pollfds: seq<Pollfd>, selinfo: seq<SelectorInfo>, wake: int, pi: nat, q: nat)
    requires pi < |pollfds| && OpenAt(pollfds, selinfo, wake, pollfds[pi].fd) && q < |pollfds| - 1
    requires LinkedOk(pollfds, selinfo, pi) && LinkedOk(pollfds, selinfo, |pollfds| - 1)
    ensures var p', s' := Dropped(pollfds, pi), Unlinked(pollfds, selinfo, pi);
            LinkedOk(p', s', q) && EventsOk(p', s', wake, q)
  {
    var from := if q == pi then |pollfds| - 1 else q;
    assert Dropped(pollfds, pi)[q] == pollfds[from];
    assert LinkedOk(pollfds, selinfo, from) && from != pi;
    assert pollfds[from].fd != pollfds[pi].fd && EventsOk(pollfds, selinfo, wake, from);
  }

  lemma DropInfo(pollfds: seq<Pollfd>, selinfo: seq<SelectorInfo>, wake: int, pi: nat, g: nat)
    requires pi < |pollfds| && OpenAt(pollfds, selinfo, wake, pollfds[pi].fd) && g < |selinfo|
    requires LinkedOk(pollfds, selinfo, pi) && LinkedOk(pollfds, selinfo, |pollfds| - 1)
    requires selinfo[pollfds[pi].fd].read == selinfo[pollfds[pi].fd].write == None
    ensures InfoOk(Dropped(pollfds, pi), Unlinked(pollfds, selinfo, pi), g)
  {
    assert InfoOk(pollfds, selinfo, g);
    var k, last := selinfo[g].pollfd, |pollfds| - 1;
    if g != pollfds[pi].fd && g != pollfds[last].fd && k >= 0 {
      assert k != pi && k != last && Dropped(pollfds, pi)[k] == pollfds[k];
    }
  }

  /** Dropping an entry that has lost its last event. */
  lemma DropOk(pollfds: seq<Pollfd>, selinfo: seq<SelectorInfo>, wake: int, pi: nat)
    requires pi < |pollfds| && OpenAt(pollfds, selinfo, wake, pollfds[pi].fd)
    requires selinfo[pollfds[pi].fd].read == selinfo[pollfds[pi].fd].write == None
    ensures 0 <= pollfds[|pollfds| - 1].fd < |selinfo|
    ensures SetOk(Dropped(pollfds, pi), Unlinked(pollfds, selinfo, pi), wake)
  {
    assert LinkedOk(pollfds, selinfo, pi) && LinkedOk(pollfds, selinfo, |pollfds| - 1);
    forall q | 0 <= q < |pollfds| - 1
      ensures var p', s' := Dropped(pollfds, pi), Unlinked(pollfds, selinfo, pi);
              LinkedOk(p', s', q) && EventsOk(p', s', wake, q)
    {
      DropLinks(pollfds, selinfo, wake, pi, q);
    }
    forall g | 0 <= g < |selinfo| ensures InfoOk(Dropped(pollfds, pi), Unlinked(pollfds, selinfo, pi), g) {
      DropInfo(pollfds, selinfo, wake, pi, g);
    }
  }

  /** Clearing one registration of entry pi leaves the set open at its descriptor. */
  lemma ClearedOpen(pollfds: seq<Pollfd>, selinfo: seq<SelectorInfo>, wake: int, pi: nat, entry: Pollfd,
                    info: SelectorInfo)
    requires SetOk(pollfds, selinfo, wake) && pi < |pollfds|
    requires entry.fd == pollfds[pi].fd && 0 <= entry.fd < |selinfo| && info.pollfd == selinfo[entry.fd].pollfd
    ensures OpenAt(pollfds[pi := entry], selinfo[entry.fd := info], wake, entry.fd)
  {
    var pollfds', selinfo' := pollfds[pi := entry], selinfo[entry.fd := info];
    assert LinkedOk(pollfds, selinfo, pi);
    forall q | 0 <= q < |pollfds'|
      ensures LinkedOk(pollfds', selinfo', q) && (pollfds'[q].fd == entry.fd || EventsOk(pollfds', selinfo', wake, q))
    {
      assert LinkedOk(pollfds, selinfo, q) && EventsOk(pollfds, selinfo, wake, q);
    }
    forall g | 0 <= g < |selinfo'| ensures InfoOk(pollfds', selinfo', g) {
      assert InfoOk(pollfds, selinfo, g);
    }
  }

  lemma StillOk(pollfds: seq<Pollfd>, selinfo: seq<SelectorInfo>, wake: int, pi: nat)
    requires pi < |pollfds| && OpenAt(pollfds, selinfo, wake, pollfds[pi].fd)
    requires LinkedOk(pollfds, selinfo, pi) && EventsOk(pollfds, selinfo, wake, pi)
    ensures SetOk(pollfds, selinfo, wake)
  {
    forall q | 0 <= q < |pollfds| ensures EventsOk(pollfds, selinfo, wake, q) {
      assert LinkedOk(pollfds, selinfo, q);
    }
  }

  // ----- The class ----------------------------------------------------------

  predicate Of(e: Option<Element>, router: nat) {
    e.Some? && e.value.router == router
  }

  class Selectors {
    var pollfds: seq<Pollfd>
    var selinfo: seq<SelectorInfo>
    var wake: int

    ghost predicate Valid()
      reads this
    {
      SetOk(pollfds, selinfo, wake)
    }

    constructor ()
      ensures Valid() && wake == -1 && forall fd :: Reader(selinfo, fd) == Writer(selinfo, fd) == None
    {
      pollfds, selinfo, wake := [], [], -1;
    }

    /** register_select up to the choice of the entry: link fd if it is not. */
    method Link(fd: nat) returns (pi: nat)
      requires Valid()
      modifies this`pollfds, this`selinfo
      ensures OpenAt(pollfds, selinfo, wake, fd) && pi == selinfo[fd].pollfd < |pollfds| && pollfds[pi].fd == fd
      ensures Waking(pollfds, selinfo, wake) <==> old(Waking(pollfds, selinfo, wake))
      ensures forall g :: Reader(selinfo, g) == old(Reader(selinfo, g)) && Writer(selinfo, g) == old(Writer(selinfo, g))
      ensures (Reader(selinfo, fd).Some? ==> pollfds[pi].pollin)
      ensures pollfds[pi].pollin ==> Reader(selinfo, fd).Some? || fd == wake
      ensures pollfds[pi].pollout == Writer(selinfo, fd).Some?
    {
      hide SetOk, OpenAt;
      GrownOk(pollfds, selinfo, wake, fd + 1);
      if fd >= |selinfo| { selinfo := Grown(selinfo, fd + 1); }
      Linked(pollfds, selinfo, wake, fd);
      BitsOf(pollfds, selinfo, wake, fd);
      if selinfo[fd].pollfd < 0 {
        selinfo := selinfo[fd := selinfo[fd].(pollfd := |pollfds|)];
        pollfds := pollfds + [Pollfd(fd, false, false)];
      }
      pi := selinfo[fd].pollfd;
    }

    /** initialize: put the reading end of the wake-up pipe into the set. */
    method Initialize(pipe: nat)
      requires Valid() && wake < 0
      modifies this
      ensures Valid() && wake == pipe && Waking(pollfds, selinfo, wake)
      ensures forall g :: Reader(selinfo, g) == old(Reader(selinfo, g)) && Writer(selinfo, g) == old(Writer(selinfo, g))
    {
      var pi := Link(pipe);
      WakeOpens(pollfds, selinfo, wake, pipe);
      wake := pipe;
      Closed(pollfds, selinfo, wake, pipe, true, pollfds[pi].pollout, selinfo[pipe]);
      pollfds := pollfds[pi := Pollfd(pipe, true, pollfds[pi].pollout)];
      assert selinfo[pipe := selinfo[pipe]] == selinfo;
    }

    /** add_select: -1 for a bad descriptor or when another element waits for the
        same event; otherwise the element is registered. */
    method AddSelect(fd: int, element: Element, read: bool, write: bool) returns (r: int)
      requires Valid()
      modifies this`pollfds, this`selinfo
      ensures Valid() && (r == 0 || r == -1)
      ensures r == -1 <==>
              || fd < 0
              || (read && Taken(old(Reader(selinfo, fd)), element))
              || (write && Taken(old(Writer(selinfo, fd)), element))
      ensures old(Waking(pollfds, selinfo, wake)) ==> Waking(pollfds, selinfo, wake)
      ensures forall g :: Reader(selinfo, g) ==
                          if r == 0 && g == fd && read then Some(element) else old(Reader(selinfo, g))
      ensures forall g :: Writer(selinfo, g) ==
                          if r == 0 && g == fd && write then Some(element) else old(Writer(selinfo, g))
    {
      if fd < 0 { return -1; }
      if !read && !write { return 0; }
      var addRead, addWrite := false, false;
      if read {
        if fd >= |selinfo| || selinfo[fd].read == None { addRead := true; }
        else if selinfo[fd].read != Some(element) { return -1; }
      }
      if write {
        if fd >= |selinfo| || selinfo[fd].write == None { addWrite := true; }
        else if selinfo[fd].write != Some(element) { return -1; }
      }
      if !addRead && !addWrite { return 0; }
      hide SetOk, OpenAt;
      var pi := Link(fd);
      OpenIndex(pollfds, selinfo, wake, fd);
      var entry, info := pollfds[pi], selinfo[fd];
      entry := Pollfd(fd, entry.pollin || addRead, entry.pollout || addWrite);
      info := SelectorInfo(if addRead then Some(element) else info.read,
                           if addWrite then Some(element) else info.write, pi);
      Closed(pollfds, selinfo, wake, fd, entry.pollin, entry.pollout, info);
      pollfds, selinfo := pollfds[pi := entry], selinfo[fd := info];
      r := 0;
    }

    /** remove_pollfd: take one registered event off entry pi, and the entry with
        it if that was the last. */
    method RemovePollfd(pi: nat, read: bool)
      requires Valid() && pi < |pollfds|
      requires (if read then Reader(selinfo, pollfds[pi].fd) else Writer(selinfo, pollfds[pi].fd)).Some?
      modifies this`pollfds, this`selinfo
      ensures Valid() && |selinfo| == old(|selinfo|)
      ensures var fd := old(pollfds[pi].fd);
              && (forall g :: Reader(selinfo, g) == if g == fd && read then None else old(Reader(selinfo, g)))
              && (forall g :: Writer(selinfo, g) == if g == fd && !read then None else old(Writer(selinfo, g)))
              && |old(pollfds)| - 1 <= |pollfds| <= |old(pollfds)|
              && (forall q :: 0 <= q < pi ==> pollfds[q].fd == old(pollfds)[q].fd)
              && (Reader(selinfo, fd).Some? || Writer(selinfo, fd).Some? ==> |pollfds| == |old(pollfds)|)
              && (|pollfds| == |old(pollfds)| ==> pollfds[pi].fd == fd && (pollfds[pi].pollin || pollfds[pi].pollout))
              && (fd != wake || !read ==> old(Waking(pollfds, selinfo, wake)) ==> Waking(pollfds, selinfo, wake))
    {
      assert LinkedOk(pollfds, selinfo, pi) && EventsOk(pollfds, selinfo, wake, pi);
      hide SetOk, OpenAt;
      var fd := pollfds[pi].fd;
      var entry, info := pollfds[pi], selinfo[fd];
      if read {
        entry, info := entry.(pollin := false), info.(read := None);
      } else {
        entry, info := entry.(pollout := false), info.(write := None);
      }
      ClearedOpen(pollfds, selinfo, wake, pi, entry, info);
      pollfds, selinfo := pollfds[pi := entry], selinfo[fd := info];
      if entry.pollin || entry.pollout {
        StillOk(pollfds, selinfo, wake, pi);
        return;
      }
      DropOk(pollfds, selinfo, wake, pi);
      selinfo := Unlinked(pollfds, selinfo, pi);
      pollfds := Dropped(pollfds, pi);
    }

    /** remove_select. */
    method RemoveSelect(fd: int, element: Element, read: bool, write: bool) returns (r: int)
      requires Valid()
      modifies this`pollfds, this`selinfo
      ensures Valid() && (r == 0 || r == -1)
      ensures r == 0 <==>
              || (read && old(Reader(selinfo, fd)) == Some(element))
              || (write && old(Writer(selinfo, fd)) == Some(element))
      ensures old(Waking(pollfds, selinfo, wake)) && old(Reader(selinfo, wake)) == None ==>
                Waking(pollfds, selinfo, wake)
      ensures forall g :: Reader(selinfo, g) ==
                          if g == fd && read && old(Reader(selinfo, g)) == Some(element) then None
                          else old(Reader(selinfo, g))
      ensures forall g :: Writer(selinfo, g) ==
                          if g == fd && write && old(Writer(selinfo, g)) == Some(element) then None
                          else old(Writer(selinfo, g))
    {
      if fd < 0 { return -1; }
      var removeRead := read && fd < |selinfo| && selinfo[fd].read == Some(element);
      var removeWrite := write && fd < |selinfo| && selinfo[fd].write == Some(element);
      if !removeRead && !removeWrite { return -1; }
      assert InfoOk(pollfds, selinfo, fd);
      hide SetOk;
      var pi := selinfo[fd].pollfd;
      if removeRead { RemovePollfd(pi, true); }
      if removeWrite { RemovePollfd(pi, false); }
      r := 0;
    }

    /** kill_router: exactly the router's registrations go, though dropping an entry
        moves the last one into its place during the scan. */
    method KillRouter(router: nat)
      requires Valid()
      modifies this`pollfds, this`selinfo
      ensures Valid()
      ensures old(Waking(pollfds, selinfo, wake)) && old(Reader(selinfo, wake)) == None ==>
                Waking(pollfds, selinfo, wake)
      ensures forall g :: Reader(selinfo, g) ==
                          if Of(old(Reader(selinfo, g)), router) then None else old(Reader(selinfo, g))
      ensures forall g :: Writer(selinfo, g) ==
                          if Of(old(Writer(selinfo, g)), router) then None else old(Writer(selinfo, g))
    {
      hide SetOk;
      var pi := 0;
      while pi < |pollfds|
        invariant 0 <= pi && Valid()
        invariant old(Waking(pollfds, selinfo, wake)) && old(Reader(selinfo, wake)) == None ==>
                    Waking(pollfds, selinfo, wake)
        invariant forall g :: Reader(selinfo, g) == old(Reader(selinfo, g)) ||
                              (Of(old(Reader(selinfo, g)), router) && Reader(selinfo, g) == None)
        invariant forall g :: Writer(selinfo, g) == old(Writer(selinfo, g)) ||
                              (Of(old(Writer(selinfo, g)), router) && Writer(selinfo, g) == None)
        invariant forall q :: 0 <= q < pi && q < |pollfds| ==>
                    !Of(Reader(selinfo, pollfds[q].fd), router) && !Of(Writer(selinfo, pollfds[q].fd), router)
        decreases |pollfds| - pi
      {
        var fd := pollfds[pi].fd;
        EntryInRange(pollfds, selinfo, wake, pi);
        if fd < |selinfo| {
          if Of(selinfo[fd].read, router) { RemovePollfd(pi, true); }
          if Of(selinfo[fd].write, router) { RemovePollfd(pi, false); }
        }
        if pi < |pollfds| && pollfds[pi].fd != fd { pi := pi - 1; }
        pi := pi + 1;
      }
      AllScanned(pollfds, selinfo, wake, router);
    }
  }

  predicate Taken(holder: Option<Element>, element: Element) {
    holder.Some? && holder.value != element
  }

  lemma EntryInRange(pollfds: seq<Pollfd>, selinfo: seq<SelectorInfo>, wake: int, pi: nat)
    requires SetOk(pollfds, selinfo, wake) && pi < |pollfds|
    ensures 0 <= pollfds[pi].fd < |selinfo|
  {
    assert LinkedOk(pollfds, selinfo, pi);
  }

  lemma OpenIndex(pollfds: seq<Pollfd>, selinfo: seq<SelectorInfo>, wake: int, fd: int)
    requires OpenAt(pollfds, selinfo, wake, fd)
    ensures 0 <= fd < |selinfo|
  {
  }

  lemma WakeOpens(pollfds: seq<Pollfd>, selinfo: seq<SelectorInfo>, wake: int, fd: nat)
    requires OpenAt(pollfds, selinfo, wake, fd) && wake < 0
    ensures OpenAt(pollfds, selinfo, fd, fd)
  {
    forall g | 0 <= g < |selinfo| ensures InfoOk(pollfds, selinfo, g) {
      assert InfoOk(pollfds, selinfo, g);
    }
    forall pi | 0 <= pi < |pollfds| && pollfds[pi].fd != fd ensures EventsOk(pollfds, selinfo, fd, pi) {
      assert LinkedOk(pollfds, selinfo, pi) && EventsOk(pollfds, selinfo, wake, pi);
    }
  }

  /** When every entry is clean, so is every descriptor. */
  lemma AllScanned(pollfds: seq<Pollfd>, selinfo: seq<SelectorInfo>, wake: int, router: nat)
    requires SetOk(pollfds, selinfo, wake)
    requires forall q :: 0 <= q < |pollfds| ==>
               !Of(Reader(selinfo, pollfds[q].fd), router) && !Of(Writer(selinfo, pollfds[q].fd), router)
    ensures forall g :: !Of(Reader(selinfo, g), router) && !Of(Writer(selinfo, g), router)
  {
    forall g ensures !Of(Reader(selinfo, g), router) && !Of(Writer(selinfo, g), router) {
      if 0 <= g < |selinfo| {
        assert InfoOk(pollfds, selinfo, g);
        if selinfo[g].pollfd >= 0 { assert pollfds[selinfo[g].pollfd].fd == g; }
      }
    }
  }
}
