# Click library: models and proofs

Dafny models of the parts of the Click modular router's core library where the
algorithm is not obvious from the code, with proofs that each does what the rest of
the router relies on.  `dafny verify dfyconfig.toml` checks everything.

| file | models |
|---|---|
| `Qsort.dfy` | `click_qsort`: iterative three-way quicksort on a fixed stack |
| `Ino.dfy`, `Strings.dfy` | `ClickIno`: the sorted directory index over element names, its searches and link counts |
| `TunnelGraph.dfy`, `TunnelCycles.dfy`, `Tunnels.dfy` | how the lexer pairs the ends of compound elements and flattens them out of the router, and when that loses a connection |
| `ConnectAll.dfy` | connecting two lists of elements with port lists (`a[0,1] => [2-]b`) |
| `PacketRefs.dfy` | reference-counted packet data: make, clone, uniqueify, kill |
| `PacketPool.dfy`, `PacketRuns.dfy`, `PacketAllocs.dfy` | the per-thread and global packet pools under every interleaving; whole calls of `recycle` and `pool_allocate` |
| `Ip6.dfy`, `Ip6Text.dfy` | IPv6 printing and parsing, and the texts that the parser takes |
| `Quote.dfy`, `ConfigText.dfy` | quoting, unquoting, comment removal and argument splitting of configuration strings, and a grammar of what they mean |
| `NameInfo.dfy`, `DynamicNames.dfy` | the tree of name databases, and the self-sorting database |
| `Md5.dfy` | MD5 block buffering, length counting and padding |
| `IntSqrt.dfy` | 32-bit `ffs_msb` and `int_sqrt` |
| `SelectSet.dfy` | the two-way index between file descriptors and poll entries |
| `Basics.dfy` | `Option`, powers of two, machine widths, numerals, ports |

How the code is carried over.  Objects that the code updates are classes (or, for
the two packet models, a heap value that a class refines step by step); vectors and
intrusive lists are sequences held in fields; buffers sorted or filled in place are
arrays.  Loops stay loops, and each such method is proved against a function or a
predicate about which the real result is proved: a permutation and an order, a set
of paths, reachability in the tunnel graph, a finite map, a fold over blocks, a
round trip.  Pointers become indices.  Allocation success, the results of external
name lookups and MD5's block function are parameters, so the results hold for every
behaviour of them.  Integers are unbounded except where width matters; there the
wrap-around is written out (`Md5`, `IntSqrt`, the 16-bit parts in `Ip6`), or the
width shows as a stated bound (`Qsort`, `Ino`, `DynamicNames`).

Some things the code does that a reader may not expect, each stated by a lemma:

* Flattening can lose a connection.  A tunnel end that is met again while it is being
  expanded contributes nothing, and the shortened answer is kept.  Often the missing
  port comes back through the expansion of another connection: a chain through at most
  two tunnels is never lost (`TunnelGraph.ShortChainKept`).  The exact condition is
  about edges inside a cycle, that is, from one tunnel end to another that leads back.
  `TunnelCycles.ExactIff`: the router has exactly the joined pairs, whatever real ports
  are connected as well, if and only if every end that can be reached from another can
  be reached with at most one such edge.  `TunnelCycles.ExampleLoses` is a
  configuration of one compound and nine connections that loses one.
* The sort does not need the comparator's answers to agree with one another.  When they
  do not, an element can count as larger and as smaller than the pivot, and the outer
  blocks can then make up the whole range; still the sort ends and stays in its stack
  (`Qsort.ClickQsort`, `Qsort.SplitOk`).
* `basic_parse` for IPv6 has room for eight parts and does not check it behind a
  double colon.  `Ip6.OutOfPartsExactly` says for which texts the eight do not
  suffice; `Ip6Text.LegalParses` says that legal texts are never among them.
* It also takes two texts that are no addresses: the empty one, and a third colon between
  "::" and a dotted quad.  `Ip6Text.TakenExactly` says that, where no names are looked
  up, these and the legal texts are all it takes.
* The skip loop's assertion in `true_prepare` holds only because directories are
  added first: `Ino.SlashMeansUnder` needs the index closed under ancestors.
* `=>` lets both sides grow at once when a bare element faces an open list; the
  lists still come out equally long (`ConnectAll.LegalWidths`).

## Model

| member | source | states |
|---|---|---|
| Qsort.ClickQsort | click-master/lib/glue.cc:550-668 | for every comparator, even one whose answers change from call to call: it ends, permutes the range and touches nothing else, and never leaves the fixed stack; if the answers follow a total preorder the range ends up sorted |
| Qsort.Round | click-master/lib/glue.cc:568-665 | one turn of the main loop keeps the invariant (permutation, pending ranges disjoint and halving, everything outside them in order) and shrinks what is pending |
| Qsort.Partition | click-master/lib/glue.cc:583-647 | a range of seven or more is permuted and cut into disjoint outer blocks smaller than the range; with fair answers: smaller, equal to the pivot and not empty, larger |
| Qsort.Scan | click-master/lib/glue.cc:611-636 | the cursors meet, or pass each other by one when an element was called both larger and smaller; with fair answers the four-region invariant: equal, smaller, larger, equal |
| Qsort.GatherEquals | click-master/lib/glue.cc:638-647 | swapping the equal blocks inwards permutes, and with fair answers gives the three-block partition |
| Qsort.Med3 | click-master/lib/glue.cc:521-531 | the chosen index is one of the three; with fair answers its element lies between the other two |
| Qsort.InsertionSort | click-master/lib/glue.cc:573-581 | short ranges are permuted, and sorted if the answers follow a total preorder |
| Qsort.SplitOk | click-master/lib/glue.cc:649-664 | pushing the larger block first keeps pending range k no larger than n / 2^k and strictly reduces what is left, also when the two blocks make up the whole range |
| Qsort.StackHasRoom | click-master/lib/glue.cc:649-652 | the assertion before a partition: two more slots are free for every n that fits size_t |
| Qsort.PartitionedOrders | click-master/lib/glue.cc:611-647 | a partition puts in order every pair except those inside one outer block |
| Strings.CompareIsPreorder | click-master/lib/ino.cc:76-82 | byte-wise comparison satisfies the laws the sort asks of a comparator |
| Strings.CompareAtDifference | click-master/lib/ino.cc:76-82 | the first byte that differs decides; a proper prefix is smaller |
| Paths.UnderIsContiguous | click-master/lib/ino.cc:131-134 | '/' sorts below every other identifier character, so the names under a directory are contiguous in sorted order |
| Paths.JoinComponents | click-master/lib/confparse.cc:256-267 | splitting an identifier at its slashes and joining gives it back |
| Ino.ClickIno.TruePrepare | click-master/lib/ino.cc:84-175 | on success the index is strictly sorted, holds exactly the names and all their ancestors, `skip` counts the strict descendants, `xindex` inverts `elementno_plus1`; it succeeds whenever memory suffices |
| Ino.IndexNeedsRoom | click-master/include/click/ino.hh:57-80 | no index with 16-bit fields exists for a router with more paths, so the bound asked by `TruePrepare` is the exact one |
| Ino.ClickIno.Grow | click-master/lib/ino.cc:54-73 | old entries stay; the capacity suffices or nothing changed; enough memory means success |
| Ino.ClickIno.AddDirectories | click-master/lib/ino.cc:124-145 | every ancestor of every name is added once, behind the names, within 16-bit indices |
| Ino.DirectoryIsNew | click-master/lib/ino.cc:126-145 | a directory that the previous name does not share is not in the index yet, so no duplicate is added |
| Ino.SecondSort | click-master/lib/ino.cc:147-149 | sorting the completed list gives a strictly sorted, duplicate-free, prefix-closed list |
| Ino.ClickIno.CalculateSkips | click-master/lib/ino.cc:151-163 | each skip is the number of strict descendants and they directly follow |
| Ino.SlashMeansUnder | click-master/lib/ino.cc:157-162 | the assertion in the skip loop cannot fail |
| Ino.ClickIno.CalculateXindex | click-master/lib/ino.cc:165-167 | xindex and elementno_plus1 become mutually inverse |
| Ino.EveryNumberUsed | click-master/lib/ino.cc:113-145 | the element numbers are a permutation of the positions |
| Ino.ClickIno.NameSearch | click-master/lib/ino.cc:178-192 | found exactly when some entry in the range has the name behind the offset |
| Ino.ClickIno.ElementNameSearch | click-master/lib/ino.cc:194-200 | a child is found exactly when its path exists, and the entry found has that path |
| Ino.ClickIno.Lookup | click-master/lib/ino.cc:238-313 | in a directory of names: ".", "..", ".e", ".h", a child exactly when its path exists, else a visible handler, else nothing |
| Ino.ClickIno.Walk | click-master/lib/ino.cc:238-313 | looking components up one by one from the root, ".", ".." and the special names included, arrives exactly where they lead |
| Ino.ClickIno.WalkName | click-master/lib/ino.cc:279-285 | going down a full name component by component reaches its entry exactly when the path exists |
| Ino.ResolvePlain | click-master/lib/ino.cc:279-285 | components that are plain names lead to the joined path, or nowhere when it does not exist |
| Ino.ClickIno.DotDot | click-master/lib/ino.cc:296-313 | ".." leads to the parent path; the assertion that it is found holds |
| Ino.ClickIno.CountSubdirectories | click-master/lib/ino.cc:219-236 | hopping by skip + 1 counts exactly the immediate subdirectories |
| Ino.HopOne | click-master/lib/ino.cc:228-231 | one hop lands behind a whole subtree and passes exactly one immediate subdirectory |
| TunnelGraph.RouterExact | click-master/lib/lexer.cc:2202-2230 | if every reachable end is reached with at most one edge inside a cycle, the router has a connection between two live ports if and only if the configuration joins them directly or through a chain of tunnels |
| TunnelCycles.ExactIff | click-master/lib/lexer.cc:2202-2230 | that condition holds if and only if the router is exact for every set of live elements and however many connections to real ports are put in front |
| TunnelCycles.MoreTurnsLose | click-master/lib/lexer.cc:2202-2230 | where it fails, four connections to one fresh element make the router miss a joined pair, for every set of live elements |
| TunnelCycles.ExampleLoses | click-master/lib/lexer.cc:2202-2230 | a concrete configuration with a joined pair that the router does not have |
| TunnelCycles.FindStuck | click-master/lib/lexer.cc:2302-2347 | where one turn is not enough there are two ends with no direct edge, all of whose connecting ways start and end inside a cycle |
| TunnelCycles.RouterMisses | click-master/lib/lexer.cc:2202-2218 | once going forward only the last end knows the target and going backward only the first knows the source, no later connection yields the pair |
| TunnelGraph.ShortChainKept | click-master/lib/lexer.cc:2202-2218 | a chain through at most two tunnels is in the router, whatever the cycles |
| TunnelGraph.AcyclicFlattenable | click-master/lib/lexer.cc:2302-2347 | without cycles through two ends every way is free of such edges, so flattening is exact |
| TunnelGraph.RouterSound | click-master/lib/lexer.cc:2202-2230 | on every configuration: no pair of ports is invented |
| TunnelCycles.CycleLosesPort | click-master/lib/lexer.cc:2302-2347 | a fact about a single expansion: of two ends on one cycle, the second expanded does not find what lies right beyond the first, though it leads there |
| TunnelCycles.EntryBlind | click-master/lib/lexer.cc:2302-2347 | when an end is the first of its cycles to be expanded, the others find nothing at it and keep that answer |
| TunnelGraph.ExpandSound | click-master/lib/lexer.cc:2302-2347 | memoised expansion ends on any tunnel graph and yields only ports that tunnels lead to |
| TunnelGraph.ExpandDown | click-master/lib/lexer.cc:2302-2347 | on every tunnel graph a finished end holds all real ports that ways without an edge inside a cycle lead to, whatever was memoised before |
| Tunnels.Table.CreateRouter | click-master/lib/lexer.cc:2202-2230 | cutting, expanding and filtering in place gives exactly the specified connections: only joined pairs, and under the condition of `TunnelGraph.RouterExact` all of them |
| Tunnels.Table.ExpandEnd | click-master/lib/lexer.cc:2302-2347 | expansion on the table with its marks is the expansion of the graph, result and memo |
| Tunnels.Table.ExpandConnection | click-master/lib/lexer.cc:2349-2359 | a port is itself, or its end's expansion, or nothing for a tunnel without end |
| Tunnels.Table.AddRouterConnections | click-master/lib/lexer.cc:2100-2116 | adds the product of the two expansions, live elements only |
| Tunnels.Table.FirstCut | click-master/lib/lexer.cc:2202-2209 | afterwards every end lists, in order, the ports connected beyond its partner |
| Tunnels.NewEndMissedNothing | click-master/lib/lexer.cc:2202-2209 | an end made late has missed no connection |
| Tunnels.Table.FindTunnel | click-master/lib/lexer.cc:2254-2300 | finds or makes an end exactly for ports whose element is a tunnel on that side; new ends come in pairs; the table stays sorted and paired |
| Tunnels.Table.FindOrInsert | click-master/lib/lexer.cc:2254-2300 | the end of a port, inserted unpaired if missing, lists kept sorted by element |
| Tunnels.Table.Locate | click-master/lib/lexer.cc:2257-2270 | binary search finds the element's list or the place it has to go |
| Tunnels.Table.PairWith | click-master/lib/lexer.cc:105-110 | pairs two opposite unpaired ends of one port number; its assertion is the precondition, met at every call |
| Tunnels.Table.AddTunnels | click-master/lib/lexer.cc:1051-1085 | two tunnels between a compound and its input and output, refused exactly when an end is already paired |
| Tunnels.PartnerMissing | click-master/lib/lexer.cc:2287-2293 | ends come in pairs, so a missing end has a missing partner and the pairing assertion cannot fail |
| TunnelGraph.PartnerTwice | click-master/lib/lexer.cc:105-110 | pairing is an involution |
| TunnelGraph.MirrorReach | click-master/lib/lexer.cc:105-110 | looking backward through the pairing turns every way round |
| ConnectAll.ConnectPorts | click-master/lib/lexer.cc:1507-1583 | no complaint if and only if the connection is legal, and then exactly its meaning: the zip of both sides stretched to one width, or a broadcast of a single port; it always ends |
| ConnectAll.AnalyzePorts | click-master/lib/lexer.cc:1490-1505 | the number of ports written down and of open lists |
| ConnectAll.Emit | click-master/lib/lexer.cc:1548-1582 | for any flags: the zip of the two stretched lists, cut to the shorter, or the broadcast |
| ConnectAll.AheadIsStretched | click-master/lib/lexer.cc:1559-1581 | the cursor steps visit exactly the stretched list: written ports, then consecutive ones, then the next element |
| ConnectAll.LegalWidths | click-master/lib/lexer.cc:1516-1546 | in a legal many-to-many connection both sides come out equally long |
| ConnectAll.StretchedLength | click-master/lib/lexer.cc:1567-1574 | an open or bare list grows by exactly the missing ports |
| PacketRefs.RunReleasesOnce | click-master/lib/packet.cc:183-224 | after every legal run, allocation failures included, a buffer is released once if no held packet points into it and not at all otherwise |
| PacketRefs.RunCounts | click-master/lib/packet.cc:644-691 | after every legal run a use count is the own handle plus the live clones, and a data origin is never itself a clone |
| PacketRefs.LiveIffHeld | click-master/lib/packet.cc:183-224 | a buffer is live exactly while some held packet points into it |
| PacketRefs.KillOk | click-master/include/click/packet.hh:1426-1442 | giving up a handle keeps the invariant and disturbs no other holder |
| PacketRefs.CloneOk | click-master/lib/packet.cc:644-691 | a clone shares the origin's bytes, adds one reference and disturbs nobody |
| PacketRefs.UniqueifyOk | click-master/lib/packet.cc:696-769 | the result is unshared, has the same bytes and the extra room; failure happens exactly without memory, and then the handle goes or stays as asked; no other packet changes |
| PacketRefs.RebufferOk | click-master/lib/packet.cc:738-769 | moving a packet to its own buffer drops the old reference exactly once |
| PacketRefs.MakeOk | click-master/lib/packet.cc:553-613 | a new packet is private and holds the given bytes |
| PacketRefs.RunOk | click-master/lib/packet.cc:644-769 | every legal run keeps the invariant |
| PacketRefs.ResizedWindow | click-master/lib/packet.cc:743-751 | every byte that is not cut off keeps its distance from the data, and the data window is the same |
| PacketRefs.PacketMemory.KillReference | click-master/lib/packet.cc:183-224 | decrement, and at zero release the buffer or drop the origin, as the specification says |
| PacketRefs.PacketMemory.ClonePacket | click-master/lib/packet.cc:644-691 | the specified clone, or nothing changed when there is no object |
| PacketRefs.PacketMemory.Uniqueify | click-master/lib/packet.cc:696-769 | recursion and failure paths give the specified result |
| PacketRefs.PacketMemory.ExpensivePush | click-master/lib/packet.cc:839-861 | nbytes of room in front of the same data in a private packet, with 125 to 128 bytes to spare in multiples of four; fails exactly without memory; others undisturbed |
| PacketRefs.PacketMemory.ExpensivePut | click-master/lib/packet.cc:864-884 | the same behind the data, with 128 bytes to spare |
| PacketPool.ReachableOk | click-master/lib/packet.cc:310-460 | every interleaving of thread steps keeps the pool invariant: lists and batches hold distinct objects, are where the bookkeeping says, and carry the right counts |
| PacketPool.NextOk | click-master/lib/packet.cc:310-460 | each single step keeps it |
| PacketPool.ReachableLimits | click-master/lib/packet.cc:383-460 | local lists hold at most 1000, the global pool at most 16 batches, and stored counts equal lengths outside the lock |
| PacketRuns.ReachableHands | click-master/lib/packet.cc:310-460 | after every interleaving a packet or buffer is in flight exactly when some thread has it in its registers |
| PacketRuns.InFlightHeld | click-master/lib/packet.cc:310-460 | the same for one object and one thread, both ways |
| PacketRuns.NextHands | click-master/lib/packet.cc:310-460 | each single step keeps that agreement |
| PacketRuns.NothingLost | click-master/lib/packet.cc:310-460 | when all threads are idle, every object ever made is in some list or batch, live, or deleted |
| PacketRuns.RecycleRun | click-master/lib/packet.cc:383-460 | `recycle` from call to return, among any steps of other threads: packet and buffer end on top of the thread's lists; a list that was full has gone to the global pool as one batch or, if sixteen were there, is deleted; otherwise it lies unchanged below |
| PacketRuns.RecStep | click-master/lib/packet.cc:395-460 | one step of that: how the thread's two lists look at every point |
| PacketRuns.OtherStep | click-master/lib/packet.cc:310-460 | a step of another thread leaves a thread's lists and registers alone |
| PacketRuns.NextDeleted | click-master/lib/packet.cc:383-460 | what is deleted is never seen again |
| PacketRuns.Bounded | click-master/lib/packet.cc:310-460 | a call returns after a bounded number of its thread's steps, those that spin on the lock apart |
| PacketRuns.LeftBound | click-master/lib/packet.cc:310-460 | the bound is 2010 steps, and whoever has the lock does not spin |
| PacketAllocs.AllocRun | click-master/lib/packet.cc:310-381 | `pool_allocate` from call to return, among any steps of other threads: exactly one packet becomes live, and one buffer if wanted; they are the first of the thread's own list, or of the global pool's first batch if that list is empty, or new if the global pool is bare; without them the system had refused, and only a refused buffer deletes something, the packet |
| PacketAllocs.QuietStep | click-master/lib/packet.cc:310-350 | until the last step nothing becomes live and nothing is deleted |
| PacketPool.OnePlace | click-master/lib/packet.cc:383-460 | a free object is in one list or batch, at one position, and not in use |
| PacketPool.PublishOk | click-master/lib/packet.cc:401-431 | handing a full list over as a batch keeps every object in one place |
| PacketPool.UnlinkOk | click-master/lib/packet.cc:316-341 | taking a batch keeps every object in one place |
| PacketPool.PushOk | click-master/lib/packet.cc:447-459 | putting an object back stays within the limit |
| PacketPool.CleanupPool | click-master/lib/packet.cc:936-953 | both lists are deleted and the assertions on the counts hold |
| PacketPool.StaticCleanup | click-master/lib/packet.cc:956-984 | from every reachable resting state: all assertions hold and each pooled object is deleted exactly once |
| Ip6Text.RoundTrip | click-master/lib/ip6address.cc:327-393 | for every address and every lookup table the printed text parses to the last character, to the same address |
| Ip6.Unparse | click-master/lib/ip6address.cc:119-158 | the text is the canonical one: "::", dotted quads for the two embedded forms, else hexadecimal fields with the first longest zero run of two or more compressed |
| Ip6.LongestRun | click-master/lib/ip6address.cc:141-151 | no zero run is longer, none as long starts earlier (section 4.2 of RFC 5952) |
| Ip6.BasicParse | click-master/lib/ip6address.cc:327-393 | the loop over d, p and coloncolon, the quad suffix and the move of the parts compute the parsing function, which `Ip6Text.LegalParses` and `Ip6Text.TakenExactly` describe |
| Ip6.OutOfPartsExactly | click-master/lib/ip6address.cc:335-380 | eight parts do not suffice for exactly the texts with a field behind seven fields and "::", or an IPv4 address behind six |
| Ip6Text.SevenThenMore | click-master/lib/ip6address.cc:343-360 | a concrete family of such texts |
| Ip6Text.LegalParses | click-master/lib/ip6address.cc:327-393 | every legal text is taken whole: eight fields, fields with one "::", and either with a dotted quad for the last two; a field is one to four digits in either case with their positional value, "::" stands for the missing zeros, the quad for two fields |
| Ip6Text.TakenExactly | click-master/lib/ip6address.cc:327-393 | where no names are looked up, a text is taken whole if and only if it is legal, is empty, or has a third colon between "::" and a quad |
| Ip6Text.TripleParses | click-master/lib/ip6address.cc:365-393 | with the third colon the address is the same as without |
| Ip6Text.UnparseLegal | click-master/lib/ip6address.cc:119-158 | the printed text is a legal text of the address |
| Ip6Text.HexNumeral | click-master/lib/ip6address.cc:119-158 | fields are printed as their value, in lower case, without leading zeros |
| Ip6Text.QuadParses | click-master/lib/ipaddress.cc:131-171 | four decimal numbers up to 255, leading zeros included, parse to their values |
| Ip6Text.QuadBack | click-master/lib/ipaddress.cc:131-171 | where no names are looked up nothing else parses |
| Ip6.ParseQuad | click-master/lib/ipaddress.cc:131-153 | the digit loops compute the quad function |
| Ip6Text.PrintAndParse | click-master/lib/ip6address.cc:119-158 | printing and then parsing returns the address and consumes the text |
| Quote.QuoteRoundTrip | click-master/lib/confparse.cc:570-682 | unquoting a quoted byte string gives it back, with either newline mode |
| Quote.ArgumentRoundTrip | click-master/lib/confparse.cc:696-710 | joining any list of quoted strings and splitting gives the list back |
| ConfigText.SplitArguments | click-master/lib/confparse.cc:696-710 | for any list of arguments made of characters, single- and double-quoted strings and "\<...>", with white space and comments around and between them: splitting the text at its commas gives the cleaned arguments, empty ones included, but for an empty last one |
| ConfigText.SplitAndUnquote | click-master/lib/confparse.cc:570-710 | unquoting what splitting gives yields the meanings of the arguments |
| ConfigText.UncommentArgument | click-master/lib/confparse.cc:374-445 | comments with the blanks around them become one space, other blanks between tokens stay, those at the ends go; quoted text is kept; the round ends at the end or at a comma outside quotes |
| ConfigText.UnquoteArgument | click-master/lib/confparse.cc:570-615 | every argument unquotes to what its tokens stand for |
| ConfigText.TokenMeans | click-master/lib/confparse.cc:570-615 | a character stands for itself, a quoted string for its contents, "\<...>" for its bytes, also where the end of the text cuts it off |
| ConfigText.SingleDecodes | click-master/lib/confparse.cc:570-615 | inside single quotes every character stands for itself |
| ConfigText.ItemDecodes | click-master/lib/confparse.cc:585-615 | inside double quotes escapes expand and other characters stand for themselves |
| ConfigText.EscapeExpands | click-master/lib/confparse.cc:476-558 | the table of escapes: letters for control characters, one to three octal digits, any number of hexadecimal digits, digit pairs with comments between, joined lines, and any other character for itself; numbers are positional values modulo 256 |
| ConfigText.HexadecimalPair | click-master/lib/confparse.cc:512-526 | two hexadecimal digits name any byte |
| ConfigText.EmptyInTheMiddle | click-master/lib/confparse.cc:704-709 | an instance: "1,,3" has three arguments |
| ConfigText.HexadecimalExample | click-master/lib/confparse.cc:512-526 | an instance: a quoted "\x41" unquotes to "A" |
| ConfigText.PartsRead | click-master/lib/confparse.cc:528-551 | "\<...>" pairs its digits whatever stands between them; an odd one is lost |
| ConfigText.TokenSkipped | click-master/lib/confparse.cc:287-344 | every token is scanned whole |
| ConfigText.CommentSkips | click-master/lib/confparse.cc:269-285 | a comment is skipped whole: block comments, lines with any of the three line ends, and comments that the text cuts off |
| Quote.ThereAndBack | click-master/lib/confparse.cc:799-813 | quote, join, split, unquote: the strings come back |
| Quote.Unquote | click-master/lib/confparse.cc:570-615 | copying whole stretches yields, character by character, the decoded text, whose meaning is `ConfigText.UnquoteArgument` |
| Quote.QuoteString | click-master/lib/confparse.cc:628-682 | the quoted string is the concatenation of the escaped characters between quotation marks |
| Quote.QuotedSafe | click-master/lib/confparse.cc:628-682 | it has printable characters only, ends of line if allowed, and no '$' without a backslash |
| Quote.GatherQuoted | click-master/lib/confparse.cc:374-423 | a quoted string is taken whole, whatever is inside it |
| Quote.SkipEscaped | click-master/lib/confparse.cc:319-333 | skipping ends behind the closing quotation mark, never at an escaped one |
| Quote.DecodeEscaped | click-master/lib/confparse.cc:476-558 | inside double quotes escaped text stands for the original |
| Quote.CommentIsSpace | click-master/lib/confparse.cc:374-445 | a comment with the spaces around it becomes one space between two words, and spaces at both ends go |
| Quote.BinaryReads | click-master/lib/confparse.cc:476-558 | a binary escape expands to exactly the bytes that its digit pairs name |
| Quote.PartialUncomment | click-master/lib/confparse.cc:374-423 | the loop with its pending stretch computes the uncommented text and where it stopped |
| Quote.ProcessBackslash | click-master/lib/confparse.cc:476-558 | the switch and its digit loops compute the escape function, which `ConfigText.EscapeExpands` describes |
| Quote.ScanBackslash | click-master/lib/confparse.cc:287-307 | the position behind an escape |
| Quote.Argvec | click-master/lib/confparse.cc:696-710 | the loop computes the argument function, which `ConfigText.SplitArguments` describes |
| Quote.Unargvec | click-master/lib/confparse.cc:799-813 | the strings with ", " between them |
| NameInfo.Registry.Install | click-master/lib/nameinfo.cc:431-446 | one more database, the earlier ones unchanged, the tree in order: siblings have prefix-incomparable contexts, parents are shorter or earlier |
| NameInfo.Registry.Insert | click-master/lib/nameinfo.cc:381-405 | linking a new context and adopting the siblings it covers keeps the tree in order |
| NameInfo.Registry.Stack | click-master/lib/nameinfo.cc:436-445 | a second database for a context goes below the first; the assertion on its children holds |
| NameInfo.Registry.Adopt | click-master/lib/nameinfo.cc:392-404 | exactly the siblings the new context covers move |
| NameInfo.Registry.Walk | click-master/lib/nameinfo.cc:362-373 | the walk ends at an applicable database none of whose children applies |
| NameInfo.Registry.FindRoot | click-master/lib/nameinfo.cc:338-348 | binary search for the type |
| NameInfo.Registry.Query | click-master/lib/nameinfo.cc:496-510 | the value from the most specific applicable database that defines the name, the newest among equals; nothing exactly when none defines it |
| NameInfo.QueryElement | click-master/lib/nameinfo.cc:412-429 | the router's databases for the element's compound decide first, the global ones last |
| NameInfo.ChainExact | click-master/lib/nameinfo.cc:362-379 | the parent chain from the database found visits exactly the installed contexts that are prefixes |
| NameInfo.ChainOrdered | click-master/lib/nameinfo.cc:496-510 | and visits them longest first |
| NameInfo.InsertedOk | click-master/lib/nameinfo.cc:381-405 | insertion below the closest database keeps the tree invariant |
| NameInfo.StackedOk | click-master/lib/nameinfo.cc:436-445 | so does stacking |
| DynamicNames.DynamicNameDB.Run | click-master/lib/nameinfo.cc:188-277 | every sequence of defines and queries answers like a finite map |
| DynamicNames.DynamicNameDB.Find | click-master/lib/nameinfo.cc:188-220 | linear and binary search agree; names stay distinct; the counter reads "sorted" only when they are, also when it got there by counting |
| DynamicNames.DynamicNameDB.Sort | click-master/lib/nameinfo.cc:230-255 | values follow their names: the map is unchanged, the names sorted |
| DynamicNames.DynamicNameDB.Query | click-master/lib/nameinfo.cc:257-266 | the value of the name in the map |
| DynamicNames.DynamicNameDB.Define | click-master/lib/nameinfo.cc:268-277 | the map with the name set; the empty name is refused |
| DynamicNames.PermutedTable | click-master/lib/nameinfo.cc:240-254 | permuting names and values alike keeps the map |
| DynamicNames.SortedNames | click-master/lib/nameinfo.cc:222-240 | sorting indices by name sorts the names strictly |
| Md5.DigestInPieces | click-master/lib/md5.cc:318-388 | however the message is cut into appends whose lengths the int arithmetic can hold, the digest is that of the message padded once (sections 3.1 to 3.5 of RFC 1321) |
| Md5.Finish | click-master/lib/md5.cc:367-388 | the digest of everything appended, low-order bytes first |
| Md5.WordBytes | click-master/lib/md5.cc:386-387 | four bytes whose values, low-order first, make up the word |
| Md5.LengthValue | click-master/lib/md5.cc:379-381 | the eight length bytes, low-order first, are the bit count modulo 2^64 |
| Md5.PaddedForm | click-master/lib/md5.cc:367-385 | the padded message: a one bit, the fewest zeros that lead to 56 modulo 64, the length |
| Md5.InitialBytes | click-master/lib/md5.cc:318-327 | the initial state is the sixteen bytes of section 3.3 of RFC 1321 |
| Md5.Md5State.Append | click-master/lib/md5.cc:329-365 | the message grows by the bytes; `count` is its bit length modulo 2^64, `abcd` the fold of its whole blocks, `buf` its tail |
| Md5.Md5State.FillBuffer | click-master/lib/md5.cc:346-356 | a partial block is completed and processed, or extended |
| Md5.CarryAdds | click-master/lib/md5.cc:340-344 | the two-word addition with carry is 64-bit addition |
| Md5.PadLengthIs | click-master/lib/md5.cc:382-383 | the pad length from the low word brings the message to 56 modulo 64 |
| IntSqrt.Sqrt | click-master/lib/integers.cc:175-198 | the one floor of the square root, for every 32-bit number |
| IntSqrt.Newton | click-master/lib/integers.cc:189-192 | the loop ends at the root or one above it, and its square fits 32 bits |
| IntSqrt.FfsMsb | click-master/lib/integers.cc:27-54 | one plus the number of leading zeros |
| IntSqrt.StartAbove | click-master/lib/integers.cc:183-188 | the start value lies above the root and is at most 2^16 |
| IntSqrt.HalfAbove | click-master/lib/integers.cc:184-185 | the start value used without `ffs_msb` is not below the root either |
| IntSqrt.StopNearRoot | click-master/lib/integers.cc:189-196 | when the step does not go down, the last value was the root |
| IntSqrt.RootsEqual | click-master/lib/integers.cc:175-198 | a number has one integer root |
| SelectSet.Selectors.KillRouter | click-master/lib/selectset.cc:108-126 | exactly the router's registrations disappear, although entries move during the scan; the wake-up pipe stays polled unless an element was reading it |
| SelectSet.Selectors.AddSelect | click-master/lib/selectset.cc:197-237 | refused exactly for a bad descriptor or an event another element holds; otherwise registered, nothing else changed; the wake-up pipe stays polled |
| SelectSet.Selectors.RemoveSelect | click-master/lib/selectset.cc:300-327 | exactly the matching registrations of the element disappear; the wake-up pipe as for `KillRouter` |
| SelectSet.Selectors.RemovePollfd | click-master/lib/selectset.cc:248-298 | one event less; the entry stays as long as it has an event; earlier entries stay in place |
| SelectSet.Selectors.Link | click-master/lib/selectset.cc:128-146 | the descriptor has an entry and the entry points back |
| SelectSet.Selectors.Initialize | click-master/lib/selectset.cc:95-106 | the wake-up pipe is polled; registrations stay |
| SelectSet.MutualInverse | click-master/lib/selectset.cc:128-146 | `_selinfo[fd].pollfd` and `_pollfds[i].fd` are inverse to each other |
| SelectSet.PolledIffRegistered | click-master/lib/selectset.cc:128-146 | the event bits are exactly the registrations, the wake-up pipe apart |
| SelectSet.DropOk | click-master/lib/selectset.cc:283-288 | moving the last entry into a dropped one keeps both indexes inverse |

## Left out

- Qsort.ClickQsort: elements, not bytes; `cq_swapfunc`'s choice of word size is not modelled, nor a comparator that changes the array.
- Ino.ClickIno.TruePrepare: asks that the distinct paths of all names fit the 16-bit index fields, which the code takes for granted and without which no index exists (`Ino.IndexNeedsRoom`); on failure it only says that the old generation does not become the new one.
- Ino.ClickIno.Walk: stays in the directories of names; what `lookup` does inside handler directories and the directory of element numbers is not modelled, nor are the encoding of inode numbers and `readdir`.
- TunnelCycles.ExactIff: about all additions of connections to real ports in front; whether one given configuration in one given order loses a pair when the condition fails is left to `TunnelGraph.Flatten` itself.
- Tunnels.Table.AddTunnels: the level of the whole configuration; tunnels of nested compounds are added by the same code when they are expanded, with other names.
- Tunnels.Table.CreateRouter: which connections the router gets, not their order: the final sort and renumbering, requirements and element creation are not modelled.
- ConnectAll.ConnectPorts: the packed integer vector is a sequence of groups; when there are complaints only termination and `ConnectAll.Emit` say what is connected. Parsing the port lists themselves is not modelled.
- PacketRefs.PacketMemory.ExpensivePush: sizes do not wrap at 32 bits, and header pointers and annotations are not modelled; the same holds for the other packet operations.
- PacketPool.ReachableOk: sequentially consistent steps; the list of thread pools and its lock are a fixed set of threads, and buffers of other than the pool size bypass the pool and are not modelled.
- PacketRuns.Bounded: a thread may spin for ever while others take the lock; no fairness is assumed.
- Ip6.BasicParse: reports running out of parts instead of what a store behind them would do; the name lookup of whole IPv6 texts is not modelled.
- Ip6Text.TakenExactly: without names in the address tables; with names, the text behind the last colon may also be one.
- ConfigText.UnquoteArgument: does not describe a comment that the end of the text cuts off inside an unfinished "\<"; there the cursor passes the end and only the functions of `Quote` say what follows. The number of a long `\x` escape is reduced at the end, not at every digit.
- NameInfo.Registry.Install: the intrusive lists are sequences; the sizes of values, which the code asserts to agree, and uninstalling a database are not modelled.
- DynamicNames.DynamicNameDB.Run: fewer than 2^31 names, the size of an int vector; values are opaque instead of bytes of a given size.
- Md5.Md5State.Append: asks that the sums of ints which the code forms fit an int; the block function itself is a parameter.
- IntSqrt.Sqrt: the 32-bit version, with either start value; the 64-bit version is not modelled.
- SelectSet.Selectors.AddSelect: locks, kqueue and the select() bit sets are not modelled.
- The rest of the library (element construction, handlers, scheduling, notifiers, address tables, kernel and user I/O, integer and fixed-point argument parsing) is not part of this project.
