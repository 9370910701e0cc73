# Verified model of zstore

zstore is an S3-like object gateway over zoned NVMe devices. This project models the parts of it that
carry most of its logic and proves what they promise:

- **The bundled XML library**, which parses destructively into its own buffer: recorded string ranges are
  terminated and decoded in place, some while the parser is still running. `XmlParser` is the parser as
  functions, `XmlReader` the buffer-writing parser proved equal to it. `XmlGrammar` and `XmlErrors` say without
  the parser which buffers are which documents and which error any other one gets, `XmlSpelling` what that
  means for attributes. `StrPair`, `Utf8` and `Escaping` are the in-place decoder and its inverse, `CharRefs`
  and `LineEnds` say without the decoder what every token and every line stands for, and `LazyStrings` is
  decoding in any order. `XmlTree` and `XmlPrinter` are the printer, `XmlPretty` the layout it produces,
  `XmlNormal` and `XmlRoundTrip` the round trip, `XmlRanges` and `XmlWellFormed` what any accepted document is
  like, and `XmlDom` the linked tree.
- **The gateway's control plane**: leader election (`Election`), the checkpoint rounds with all their
  interleavings (`Checkpoint`) and what becomes of one that nothing disturbs (`CheckpointRound`), election and
  rounds together over sessions that end and gateways that come back (`Sessions`, `FailOver`,
  `FailOverRuns`), the pool of request contexts, the requests that share it and the two together
  (`ContextPool`, `RequestPaths`, `PooledPaths`), block addresses (`ZoneLayout`), replica placement and
  garbage collection (`Placement`) and the byte formats (`ObjectCodec`).
- **The NVMe-oF target**: its nine-state life cycle (`NvmfTarget`) and its thread scheduler
  (`ReactorScheduler`).

`Collections` holds what several of these share.

Every `.dfy` file is part of one program; `dafny verify dfyconfig.toml` covers all of them.

## How to read it

Loops, classes and in-place updates of the source are methods and classes here, each tied by its
`ensures` to a function or a state invariant; what the source is for is then stated about that function,
or about every run. The classification of characters (`isspace`, name characters) is a parameter of the
XML model (`Lexicon`), subject only to how the classes overlap; `XmlParser.DEFAULT` holds the source's
own classes. Foreign calls appear as
steps with any outcome: a request completes, a znode changes, a subsystem refuses to stop, an allocation
fails.

Findings, each stated and proved as such:

- `GetStr` leaves an unknown entity's `&` to whatever byte lies under the *write* cursor, so a text that
  has already shrunk loses it: `&amp;&b` becomes `&ab`. `DecodeIsPlainIff` is the exact condition.
- In a numeric reference everything before another `x` or `#` is ignored, and an `&#` that ends the text
  disappears (`TokenIs`).
- An end tag may carry attributes, which are dropped; `</a/>` is an empty element; attributes need no blank
  between them. `ParseIsGrammar` says exactly what is accepted.
- Empty or blank text does not survive a print and a parse, and adjacent texts merge. `RoundTrip` says
  that nothing else is lost, and `BlankTextIsLost` gives a document.
- The document itself can be given as the node to insert or to delete; it belongs to no memory pool, and
  the code then reads through a null pointer (`DocumentInserted`).
- `InsertAfterChild` also reads through a null pointer exactly when the node to insert is the last child and
  directly follows the node it is to be inserted after; `NullReadHappens` builds such a document.
- No insertion tests whether its new parent is at or below the node; exactly then the tree is lost
  (`BelowItself`, and `LoopHappens` for a run).
- A gateway restarted before its former session has ended can lead in both sessions at once, and then
  remove a node that was never marked: `EarlyRestart`. Without such restarts this cannot happen, and from
  any run such a restart can lead to two leaders (`EarlyStartBreaks`).
- After a fail-over a late notice of the old round can mark a node of the new leader before that one has
  written anything: `LateAcknowledgement`.
- A leader without followers never removes its own node: nobody's mark calls for a scan (`WhatIsLeft`).
- A thread is lost exactly when its ring is full, because the result of the enqueue is ignored:
  `LosesAThread`.
- The chunk-list codec and the object parser reach past a short buffer without a check of their own,
  exactly when `inside` is false (`WritesPastBuffer`, `ReadsPastCount`, `ReadsPastEntry`).
- When every call to stop a subsystem fails at once, the nested advance makes the entry action of
  `FINI_POLL_GROUPS` run twice; the second run finds nothing to do. `StopFails` is such a run.
- `Map2Gc` reads from device 0 after all exactly when the replica it picks is also there; placed entries
  never are such.
- Half of the objects of the checkpoint map, and a third of those of the others, have two replicas on one
  device (`ReplicasApart`).
- The first zone is entered at address 0 whatever the configured first zone is.
- `splitObjectIntoChunks` never takes its branch for a short last chunk; a remainder is dropped.

## Model

| member | source | states |
|---|---|---|
| `Utf8.ConvertUTF32ToUTF8` | src/tinyxml2.cpp:401-448 | the loop with the source's own masks, marks and shifts yields, for every code point below 0x200000, the bytes of its base-64 digits under the lead byte of its length, and no bytes for any above |
| `Utf8.DecodesUniquely` | src/tinyxml2.cpp:401-448 | concatenated encodings decode back to the code points they came from, whatever their lengths |
| `StrPair.GetCharacterRef` | src/tinyxml2.cpp:450-538 | the backwards digit scan with its 32- and 64-bit wrap-around equals `CharRef` on the original text, with every failure case |
| `StrPair.CharRef` | src/tinyxml2.cpp:450-538 | a numeric reference yields at most four bytes and never more bytes than its own text has |
| `StrPair.FindEntity` | src/tinyxml2.cpp:325-349 | finds the first of the five entities that is spelled out before the end of the text |
| `StrPair.DecodeStep` | src/tinyxml2.cpp:286-362 | one round of the two-cursor loop: consumes one token, writes its bytes behind the read cursor and nothing else; what the token is says `CharRefs.TokenIs` |
| `StrPair.DecodeLoop` | src/tinyxml2.cpp:275-368 | the write cursor stays at or behind the read cursor, and the buffer ends up as `Flushed`: decoded text, terminator, old leftovers |
| `StrPair.Pair.GetStr` | src/tinyxml2.cpp:275-368 | the first call rewrites exactly the pair's range to its decoded text; later calls change nothing |
| `StrPair.DecodeIsPlainIff` | src/tinyxml2.cpp:345-349 | the in-place decoder equals the plain decoder if and only if an `&` lies under the write cursor at every unknown entity |
| `StrPair.UnknownEntityAfterShrink` | src/tinyxml2.cpp:345-349 | a concrete text on which the two differ |
| `Escaping.DecodeEscape` | src/tinyxml2.cpp:2516-2572 | for every CR-free string, in restricted and full mode, decoding what `PrintString` emits gives the string back |
| `Escaping.EscapeAvoids` | src/tinyxml2.cpp:2516-2572 | escaped text holds neither `<` nor `>` and, in full mode, no quote of either kind, so it cannot end the text or the attribute it is printed in |
| `Escaping.DigitIs` | src/tinyxml2.cpp:456-520 | a digit is worth its place in the alphabet of its base, in either case |
| `Escaping.ScanBackValue` | src/tinyxml2.cpp:456-520 | for runs of up to 8 hex or 9 decimal digits the right-to-left accumulation equals the left-to-right value without wrap-around |
| `Escaping.DecodeNumerals` | src/tinyxml2.cpp:307-350 | any sequence of such references decodes to the concatenated UTF-8 of their values, and that decodes back to the values |
| `CharRefs.TokenIs` | src/tinyxml2.cpp:286-362 | at every position of every text and in every mode the decoder reads exactly one token: a line end of either kind and order is one line feed, the five names stand for their characters, a numeric reference for the encoding of its number, a cut-off `&#` for nothing, anything else for itself |
| `CharRefs.ScanIsWorth` | src/tinyxml2.cpp:456-520 | on digit runs of any length the two wrapping counters give the sum of the digits' shares, each modulo 2^32; the 64-bit sum never wraps |
| `CharRefs.PowVanishes` | src/tinyxml2.cpp:456-520 | from the 32nd digit on, in either base, a digit's share is zero |
| `CharRefs.RefersIs` | src/tinyxml2.cpp:450-538 | digits back to an `x` or `#`, up to the first semicolon, are a reference with the number they are worth |
| `CharRefs.RefIsRefers` | src/tinyxml2.cpp:450-538 | and nothing else is |
| `LineEnds.DecodeLines` | src/tinyxml2.cpp:288-305 | a text without references is decoded to its lines joined by line feeds, whichever of the four line ends stands between any two of them |
| `LineEnds.EveryText` | src/tinyxml2.cpp:288-305 | every text is such a list of lines |
| `LineEnds.DecodedFree` | src/tinyxml2.cpp:288-305 | what is decoded holds no carriage return |
| `LineEnds.DecodeEscapeLines` | src/tinyxml2.cpp:2516-2572 | for every string, in restricted and full mode, decoding what `PrintString` emits gives the string with its line ends normalised |
| `LazyStrings.RunConsistent` | src/tinyxml2.cpp:275-368 | over any sequence of `GetStr` calls on separate ranges every range is either untouched or decoded from the original text |
| `LazyStrings.LazyIsEager` | src/tinyxml2.cpp:203-245 | from the buffer a parse leaves, with the names it terminated counted as already asked for, `GetStr` calls in any order and number give what eager decoding of the original input gives |
| `LazyStrings.ParseThenGet` | src/tinyxml2.cpp:2412-2441 | the destructive parse and any later `GetStr` calls run in one buffer: success is that of the pure parser, and every string asked for is there, decoded from the original text with the flags of its kind, and terminated |
| `LazyStrings.LeftConsistent` | src/tinyxml2.cpp:228-245 | what the parser itself has written is what `GetStr` on those names would have: terminators only |
| `LazyStrings.ParseAndRead` | src/tinyxml2.cpp:2412-2441 | the destructive parse, and then `GetStr` on every string of the tree: the buffer shows the tree that `XmlNormal.ReadAll` reads from the original text |
| `LazyStrings.AllShown` | src/tinyxml2.cpp:275-368 | once each range holds its decoded text and a terminator, the buffer shows the whole tree |
| `XmlGrammar.ParseIsGrammar` | src/tinyxml2.cpp:1031-1147 | the parser accepts a buffer with a tree if and only if the buffer is laid out as that tree: where every blank, `<`, name, equals sign, quote and end mark has to stand, said without the parser |
| `XmlGrammar.AttrParses` | src/tinyxml2.cpp:1373-1402 | a name, an equals sign with or without blanks around it, and a value up to the first quote of the kind that opened it are read as that attribute |
| `XmlGrammar.AttrOf` | src/tinyxml2.cpp:1373-1402 | and whatever is read as an attribute is written so |
| `XmlGrammar.NodeParses` | src/tinyxml2.cpp:679-756 | every node laid out by the grammar is read as that node, with all below it |
| `XmlErrors.ParseErrors` | src/tinyxml2.cpp:1031-1147 | the parser reports an error if and only if the first thing in the buffer that breaks the grammar calls for it |
| `XmlErrors.LeafFailsIff` | src/tinyxml2.cpp:1193-1359 | text, CDATA, comments, declarations and unknowns fail exactly without their end mark, each with its own error |
| `XmlSpelling.SpelledAttributes` | src/tinyxml2.cpp:1373-1402 | any list of attributes with different names, each with any blanks around the equals sign and quotes of either kind, is read as those names and decoded values |
| `XmlRanges.ParseChain` | src/tinyxml2.cpp:1031-1147 | the ranges recorded by a successful parse follow one another in document order, each with room for its terminator |
| `XmlRanges.ParseSeparates` | src/tinyxml2.cpp:203-245 | hence they are pairwise disjoint, terminators included, and inside the buffer |
| `XmlWellFormed.ParseSound` | src/tinyxml2.cpp:1051-1147 | with no error every element is self-closed or matched by an end tag of its own name, attribute names are distinct, nesting is below the limit, declarations come first |
| `XmlWellFormed.AttrsDistinct` | src/tinyxml2.cpp:1853-1911 | accepted attribute lists have pairwise different names |
| `XmlParser.ParseNodes` | src/tinyxml2.cpp:1031-1147 | terminates on every input because each round consumes, and an end tag is found strictly further on and within the input |
| `XmlParser.DefaultValid` | src/include/tinyxml2.h:571-590 | the source's own whitespace and name classes meet every assumption made of a `Lexicon` |
| `XmlReader.Reader.SkipWhiteSpace` | src/include/tinyxml2.h:550-567 | the cursor stops where `Skip` says on the original input |
| `XmlReader.Reader.ParseText` | src/tinyxml2.cpp:203-226 | finds the first end mark in the original input although earlier bytes have been overwritten |
| `XmlReader.Reader.ParseNameAt` | src/tinyxml2.cpp:228-245 | finds the end of the longest name, or refuses |
| `XmlReader.Reader.IdentifyAt` | src/tinyxml2.cpp:679-756 | classifies by the longest matching mark, as on the original input |
| `XmlReader.Reader.ParseAttribute` | src/tinyxml2.cpp:1373-1402 | reads one attribute as `ParseAttr` does and leaves it intact |
| `XmlReader.Reader.FindAttribute` | src/tinyxml2.cpp:1528-1536 | decides whether the name occurs before; flushes only terminators behind the cursor |
| `XmlReader.Reader.ParseAttributes` | src/tinyxml2.cpp:1853-1911 | equals `ParseAttrs` on the original input with the same error; all recorded names and values stay intact |
| `XmlReader.Reader.LeafParseDeep` | src/tinyxml2.cpp:1193-1359 | text, CDATA, comments, declarations and unknowns as `ParseLeaf`, with their errors |
| `XmlReader.Reader.ElementParseDeep` | src/tinyxml2.cpp:1968-1993 | equals `ParseElement` on the original input and restores the depth |
| `XmlReader.Reader.CompareTags` | src/tinyxml2.cpp:1107-1140 | a matched end tag is one whose name equals the start tag's in the original input |
| `XmlReader.Reader.NodeParseDeep` | src/tinyxml2.cpp:1031-1147 | the whole child list as `ParseNodes`; every flush lies behind the cursor and outside every recorded range; depth restored on every path |
| `XmlReader.Reader.Parse` | src/tinyxml2.cpp:2412-2441 | the destructive parser accepts, refuses and builds exactly what the pure parser does on the untouched input; the text of every recorded range is still as given, and what was written are terminators of names, now NUL, never those of values or texts |
| `XmlPrinter.Printer.PrintString` | src/tinyxml2.cpp:2516-2572 | appends the escaped string |
| `XmlPrinter.Printer.OpenElement` | src/tinyxml2.cpp:2604-2614 | seals the parent, places whitespace only where `Lead` allows, and updates depth and text depth |
| `XmlPrinter.Printer.CloseElement` | src/tinyxml2.cpp:2668-2692 | emits `/>` or an end tag, with whitespace only outside mixed content |
| `XmlPrinter.Printer.PushText` | src/tinyxml2.cpp:2703-2715 | marks the present depth as holding text and emits it escaped or as CDATA |
| `XmlPrinter.Printer.Accept` | src/tinyxml2.cpp:2802-2847 | visiting a node appends exactly what `PrintTree` prints and leaves the state it says |
| `XmlPrinter.Printer.AcceptDocument` | src/tinyxml2.cpp:2793-2800 | the printer's output for a document is `PrintDocument` of its tree |
| `XmlPretty.CompactDocument` | src/tinyxml2.cpp:2586-2602 | a compact print is the markup and not a byte more |
| `XmlPretty.IndentedDocument` | src/tinyxml2.cpp:2586-2715 | an indented print has every tag on a line of its own, four spaces for each level deep, except where text around or beside it keeps it on the line |
| `XmlNormal.NormFixed` | src/tinyxml2.cpp:1193-1219 | normalising changes a tree if and only if it has blank text or adjacent plain texts |
| `XmlRoundTrip.ParsePrint` | src/tinyxml2.cpp:2604-2715 | for every printable document, compact or indented at any depth, with or without a byte order mark, parsing its print gives its normal form |
| `XmlRoundTrip.RoundTrip` | src/tinyxml2.cpp:2604-2715 | the tree comes back unchanged if and only if it is normal |
| `XmlRoundTrip.BlankTextIsLost` | src/tinyxml2.cpp:1193-1219 | an element that holds one space comes back empty, in every print of it |
| `XmlRoundTrip.IndentedIsCompact` | src/tinyxml2.cpp:2586-2614 | the indented and the compact print of a document parse to the same tree |
| `XmlRoundTrip.AttrsParse` | src/tinyxml2.cpp:2616-2624 | printed attributes with distinct names are read back one by one, whatever was read before |
| `XmlDom.UnlinkForest` | src/tinyxml2.cpp:860-881 | joining the neighbours of a child keeps every list of the whole forest well linked |
| `XmlDom.InsertForest` | src/tinyxml2.cpp:895-985 | linking a loose node under any node that is not below it keeps the forest and its acyclicity |
| `XmlDom.BelowItself` | src/tinyxml2.cpp:895-985 | when a node gets a parent that is at or below it and no other parent changes, the pointers are no forest, whatever is recorded about them |
| `XmlDom.ExactlyOnePlace` | src/tinyxml2.cpp:2086-2097 | between operations every live node but the document is in exactly one child list or in the list of unlinked nodes, never in both |
| `XmlDom.Document.Unlink` | src/tinyxml2.cpp:860-881 | the parent's list loses exactly that child; everything else stays |
| `XmlDom.Document.MarkInUse` | src/tinyxml2.cpp:2086-2097 | the node, and only it, leaves the list of unlinked nodes |
| `XmlDom.Document.InsertChildPreamble` | src/tinyxml2.cpp:1164-1175 | whichever list held the node, none holds it afterwards; for the document, and only for it, a null pointer is read |
| `XmlDom.Document.InsertEndChild` | src/tinyxml2.cpp:895-921 | when the new parent is not at or below the node, the new list is the old one without the node, then the node, and all other lists only lose it; exactly otherwise the pointers are no forest any more; the document given as the node is a null read |
| `XmlDom.Document.InsertFirstChild` | src/tinyxml2.cpp:923-950 | likewise at the front |
| `XmlDom.Document.InsertAfterChild` | src/tinyxml2.cpp:952-985 | likewise directly behind the given sibling; refusal and null read happen exactly under the stated conditions |
| `XmlDom.Document.CreateUnlinkedNode` | src/include/tinyxml2.h:1973-1985 | a new node is in no child list and once in the list of unlinked nodes |
| `XmlDom.Document.DeleteNode` | src/tinyxml2.cpp:1149-1162 | exactly the subtree is gone, and every surviving node's pointers are as they were |
| `XmlDom.Document.DeleteChild` | src/tinyxml2.cpp:883-893 | exactly the child's subtree is gone, its siblings are re-linked, parents unchanged |
| `XmlDom.Document.DeleteChildren` | src/tinyxml2.cpp:851-858 | terminates with everything below the node gone and nothing else changed |
| `XmlDom.Document.Delete` | src/tinyxml2.cpp:2199-2214 | deletes a node wherever it is, with the same guarantees; for the document, and only for it, a null pointer is read |
| `XmlDom.Document.Clear` | src/tinyxml2.cpp:2099-2105 | terminates with no children, no unlinked nodes and no live node but the document |
| `XmlDom.OnlyRoot` | src/tinyxml2.cpp:2099-2105 | a forest with no children, unlinked or loose nodes consists of the document alone |
| `XmlDom.Document.Perform` | src/tinyxml2.cpp:851-985 | one operation, unless it is one that loses the tree or reads a null pointer, and exactly what it does: a creation adds one unlinked node, a move puts the node where it is told and takes it from everywhere else, a deletion removes exactly the subtree, a clear leaves the document |
| `XmlDom.Document.Run` | src/tinyxml2.cpp:851-985 | over any sequence of operations from a new document the pointers stay a forest with every node in its place, up to exactly the first operation that loses the tree or reads a null pointer |
| `XmlDom.NullReadHappens` | src/tinyxml2.cpp:952-985 | a document with two children on which `InsertAfterChild` reads through a null pointer |
| `XmlDom.DocumentInserted` | src/tinyxml2.cpp:1164-1175 | the document given as the node to insert, which nothing refuses |
| `XmlDom.LoopHappens` | src/tinyxml2.cpp:895-921 | a node made a child of itself, which nothing refuses |
| `Election.FindLeader` | src/zstore_controller.cc:1166-1178 | the scan loop returns the position `Scan` says, over any well-formed listing |
| `Election.ScanIsLowest` | src/zstore_controller.cc:1166-1178 | that is the first child with the lowest number |
| `Election.ElectsLowest` | src/zstore_controller.cc:1161-1187 | whatever the order of the listing, it is the node with the lowest sequence number of all |
| `Election.SequenceOfName` | src/zstore_controller.cc:1061-1071 | the number read from a node's name is its sequence number |
| `Election.LeaderIsMinimum` | src/zstore_controller.cc:1161-1187 | in every reachable state a gateway's leader is the minimum of its last listing, and its name that node's or empty |
| `Election.SameObservationAgrees` | src/zstore_controller.cc:1161-1187 | gateways that listed the same nodes agree, at whatever times they did |
| `Election.LeaderNeverDecreases` | src/zstore_controller.cc:1161-1187 | the leader number a gateway sees never decreases over a run |
| `Election.JoinsNeverDisplace` | src/zstore_controller.cc:1061-1071 | while a leader's node lives every later listing by any gateway finds it again, however many joined |
| `Election.LiveLeadersAgree` | src/zstore_controller.cc:1161-1187 | two gateways whose leaders' nodes both live have the same leader, whenever each of them listed |
| `Election.FetchedName` | src/zstore_controller.cc:1180-1184 | the leader's name is empty exactly when its node vanished between listing and reading |
| `Checkpoint.CommitsAreJustified` | src/zstore_controller.cc:1500-1784 | in every interleaving and under any views of the leader, every commit mark is preceded by a gateway that took the leader branch, read all its requests, then wrote them all and then committed |
| `Checkpoint.MarkedAfterWriting` | src/zstore_controller.cc:1500-1784 | when leaders follow one another and none has lost its session, a node is marked only after its own creator has read and then written every one of its requests |
| `Checkpoint.EachRequestOnce` | src/zstore_controller.cc:1680-1712 | in every round each request is read once and then written once |
| `Checkpoint.DoneMeansAll` | src/zstore_controller.cc:1680-1712 | a finished round has read all its requests, then gone over to writing, and written them all |
| `Checkpoint.EmptyMeansCommitted` | src/zstore_controller.cc:1102-1159 | when a leader sees no transaction nodes, each one created before was lost with its creator's session or had been marked: under its name whatever the gateways believe, that very node when leaders follow one another |
| `Checkpoint.RemovedWereMarked` | src/zstore_controller.cc:1118-1147 | every node a scan removes had been marked under its name, and that very node when leaders follow one another |
| `FailOver.LeadersFollowOneAnother` | src/zstore_controller.cc:1161-1187 | with views read from the election, over any number of joins, listings, lost sessions and returns, a second session takes the leader branch only after the first has ended, provided no gateway starts a session before its former one has ended |
| `FailOver.EarlyStartBreaks` | src/zstore_controller.cc:1161-1187 | that proviso cannot be dropped: from any run, a session that starts while another of its gateway has not ended can be followed by both taking the leader branch |
| `FailOverRuns.EarlyRestart` | src/zstore_controller.cc:1500-1515 | a run in which a gateway restarted too early leads twice at once, and a node is removed that was never marked |
| `FailOver.RemovedWereMarked` | src/zstore_controller.cc:1118-1147 | hence, under the same proviso, across any number of fail-overs and returns every node a scan removes had itself been marked |
| `FailOver.EmptyMeansCommitted` | src/zstore_controller.cc:1102-1159 | and when a leader sees no transaction nodes, each one created before was lost with its creator's session or had itself been marked as committed |
| `FailOver.MarkedAfterWriting` | src/zstore_controller.cc:1607-1712 | until a leader loses its session, a node is marked only after its own creator has written every one of its requests |
| `FailOverRuns.LateAcknowledgement` | src/zstore_controller.cc:1189-1218 | a run with a fail-over in which a node is marked whose creator has written nothing |
| `FailOver.NamesDiffer` | src/zstore_controller.cc:212 | gateways with different numbers have different names |
| `Checkpoint.SessionEnds` | src/zstore_controller.cc:1189-1218 | exactly the nodes and watches of an ended session vanish, and those who watched its nodes are told |
| `CheckpointRound.RoundCompletes` | src/zstore_controller.cc:1102-1784 | from where the leader has created its nodes and every follower watches, whatever the order of all further steps: when none is left, the leader has finished its work and every node has been marked and removed |
| `CheckpointRound.StepNearer` | src/zstore_controller.cc:1102-1784 | every such step brings the end nearer, so that no order of them goes on for ever |
| `CheckpointRound.RoundBegins` | src/zstore_controller.cc:1500-1784 | from the very beginning any leader and any followers, listed in any order, can get to where a round begins |
| `CheckpointRound.WhatIsLeft` | src/zstore_controller.cc:1102-1159 | only the leader's node of a team without followers outlives the round |
| `Checkpoint.MarkedNodes` | src/zstore_controller.cc:1408-1416 | a mark on a node stems from a set in the log, and no node is ever marked as aborted |
| `Checkpoint.BatchesAreBounded` | src/zstore_controller.cc:1607-1628 | at most 256 requests of a gateway are in flight, all from one window |
| `Checkpoint.StepProven` | src/zstore_controller.cc:1500-1784 | every step of every gateway, watcher and session keeps the commit provenance and the batch windows |
| `Checkpoint.StepKept` | src/zstore_controller.cc:1189-1218 | every step keeps the history of created, marked and removed nodes |
| `ContextPool.Pool.constructor` | src/common.cc:593-616 | all contexts free, listed once, with buffers of their own |
| `ContextPool.Pool.Get` | src/common.cc:618-650 | hands out the last free context, a heap context when there is none and the caller insists, and null otherwise; never one that is held |
| `ContextPool.Pool.Return` | src/common.cc:653-666 | preallocated contexts become free again, heap contexts never enter the list |
| `ContextPool.MakeWriteChunk` | src/common.cc:759-790 | the request holds the given bytes, and nobody else's buffer changes |
| `ContextPool.HandOver` | src/zstore_controller.cc:1701-1712 | every write request ends with exactly the bytes its read request held, although read slots are reused at once, and also when the pool overflows |
| `RequestPaths.PathsTake` | src/http_server.cc:260-358 | how many contexts each kind of request takes and gives back: none to look up and miss, one for a read, three for the replicas of a write, and those of its chunks |
| `RequestPaths.PathsPeak` | src/http_server.cc:260-358 | how many each needs at once: all chunks of a large object are in flight together, a collection holds one more than it reads |
| `RequestPaths.PathsBalance` | src/http_server.cc:260-358 | every GET, PUT, delete and collection path returns exactly what it acquires and never underflows |
| `RequestPaths.NeverShared` | src/http_server.cc:459-569 | in every interleaving no context is held twice, or held and free |
| `RequestPaths.CapacityIsConserved` | src/common.cc:593-666 | in every reachable state the free list is a duplicate-free part of the preallocated contexts, and free plus held preallocated ones equal the capacity |
| `RequestPaths.CompletedPathsHoldNothing` | src/http_server.cc:613-671 | a finished handler holds nothing, and one about to return a context has one |
| `RequestPaths.AllReturned` | src/http_server.cc:613-671 | when all handlers have finished, all preallocated contexts are free |
| `PooledPaths.Serve` | src/http_server.cc:260-358 | the handlers run on the pool's own contexts, whatever the events, taking it through the states of such a run; when all have finished the pool has all its contexts back |
| `ZoneLayout.Settle` | src/zstore_controller.cc:874-883 | one round of the address loop gives the closed form, with and without a gap between zones |
| `ZoneLayout.PopulateCheckpointMap` | src/zstore_controller.cc:855-901 | every entry lies at the closed-form address on the alternating device |
| `ZoneLayout.PopulateCollectMap` | src/zstore_controller.cc:912-946 | likewise over six devices, all entries tombstoned |
| `ZoneLayout.PopulateRandomReadMap` | src/zstore_controller.cc:948-979 | likewise; the three loops agree on all addresses |
| `ZoneLayout.FirstDevicesGoRound` | src/zstore_controller.cc:855-979 | first replicas start on device 0 and go round two devices, or six |
| `ZoneLayout.ReplicasApart` | src/zstore_controller.cc:855-979 | the three replicas lie at one address; they are on three different devices exactly for the even objects of the checkpoint map, and for those with number 0, 3, 4 or 5 in a row of six in the others |
| `ZoneLayout.LbaIncreases` | src/zstore_controller.cc:861-895 | addresses strictly increase |
| `ZoneLayout.OffsetWithinCapacity` | src/zstore_controller.cc:861-895 | no address lies beyond the zone's capacity |
| `ZoneLayout.ZoneOf` | src/zstore_controller.cc:861-895 | which zone the `i`-th address lies in |
| `ZoneLayout.DocumentedMoves` | README.md:44-46 | the zone moves in the documented log |
| `Placement.PopulateDevHash` | src/zstore_controller.cc:350-363 | the triple loop yields the legal triples in order, n(n-1)(n-2) of them |
| `Placement.EachTripleOnce` | src/zstore_controller.cc:350-363 | each ordered triple of different devices occurs at exactly one position |
| `Placement.OnlyDifferentDevices` | src/zstore_controller.cc:527-534 | whatever index is drawn, the three devices differ |
| `Placement.Map2Gc` | src/zstore_controller.cc:1457-1490 | one move per tombstoned entry with a replica on device 0, in order, and none for any other |
| `Placement.LiveIsKept` | src/zstore_controller.cc:1457-1490 | the number of entries kept is the number of those not tombstoned |
| `Placement.VictimsAre` | src/zstore_controller.cc:1474-1476 | the moved positions are exactly the tombstoned entries on device 0, each once |
| `Placement.SourceOffDevice0` | src/zstore_controller.cc:1476-1484 | the replica read is off device 0 if and only if the next replica is not there as well |
| `Placement.EntryRecords` | src/common.cc:668-683 | an entry pairs each device of its triple with the address that device wrote to |
| `Placement.PlacedEntriesMove` | src/common.cc:668-683 | for an entry of a write on a triple from the list the source is a device of that triple other than device 0, at the address it wrote to |
| `Placement.CollectPlaced` | src/zstore_controller.cc:1457-1490 | on a whole map of entries placed by the list, every move is of a tombstoned entry on device 0 and reads what another device of the same write has, at the address it wrote to |
| `Placement.CollectPopulated` | src/zstore_controller.cc:912-946 | on the populated map every sixth object is moved, from device 1 at its own address |
| `ObjectCodec.SerializeMap` | src/object.cc:170-200 | the buffer starts with the count and the rows in key order, or is too small for them, in which case the source writes past it: exactly when `inside` is false |
| `ObjectCodec.DeserializeMap` | src/object.cc:202-229 | reads the map the bytes describe, later rows replacing earlier ones, or past the buffer: exactly when the rows counted do not lie inside it |
| `ObjectCodec.LowByteFirst` | src/object.cc:135-200 | numbers are written with the low byte first |
| `ObjectCodec.ChunkAt` | src/object.cc:170-200 | where each chunk's key and the two numbers of its value lie in the list |
| `ObjectCodec.ChunkListRoundTrip` | src/object.cc:170-229 | every chunk list that fits the buffer is read back unchanged |
| `ObjectCodec.WriteObject` | src/object.cc:135-168 | the buffer is the header and the body, zeros for a missing body |
| `ObjectCodec.HeadParts` | src/object.cc:135-168 | where the log entry, the key text, the key size and the data length lie in the header |
| `ObjectCodec.ReadObject` | src/object.cc:77-133 | accepts what `Parse` accepts, with the 64-bit sum and the allocation limit; reads past the buffer exactly when it ends inside the key text |
| `ObjectCodec.WritesPastBuffer` | src/object.cc:170-200 | one chunk and a buffer that holds only the count |
| `ObjectCodec.ReadsPastCount` | src/object.cc:202-229 | a count of one and nothing behind it |
| `ObjectCodec.ReadsPastEntry` | src/object.cc:77-133 | a log entry and no key text behind it |
| `ObjectCodec.ObjectRoundTrip` | src/object.cc:77-168 | every object with a body or no data is read back unchanged, whatever follows it |
| `ObjectCodec.ParsedIsPrefix` | src/object.cc:77-133 | whatever is read is a complete object whose bytes the buffer starts with |
| `ObjectCodec.PrefixRejected` | src/object.cc:77-133 | strict prefixes are rejected |
| `ObjectCodec.MissingBodyIsZeros` | src/object.cc:161-165 | an object written without its body comes back with zeros |
| `ObjectCodec.Split` | src/object.cc:243-273 | as many chunks as fit, each the next slice of the body, numbered from 1 |
| `ObjectCodec.ChunksCoverIff` | src/object.cc:243-273 | the chunks make up the body if and only if the chunk size divides it |
| `NvmfTarget.Target.EntryAction` | examples/nvmf.cc:730-767 | an entry action leaves the state alone, with exactly what that state waits for under way, or strictly raises it to a state ready to be entered |
| `NvmfTarget.Target.AdvanceState` | examples/nvmf.cc:725-768 | terminates, at the state `Rest` says; entry actions run in increasing order |
| `NvmfTarget.Target.StopAfter` | examples/nvmf.cc:463-484 | the stop chain waits for the first subsystem that can be stopped, and otherwise moves on at once |
| `NvmfTarget.Target.StopSubsystems` | examples/nvmf.cc:486-503 | waits, moves on, or has moved on and run the next entry action already - which of these is decided by the stop calls |
| `NvmfTarget.Target.OnGroupCreated` | examples/nvmf.cc:557-575 | the last group moves the target to where starting the subsystems leads; any other only adds the group and counts it |
| `NvmfTarget.Target.OnGroupDestroyed` | examples/nvmf.cc:628-638 | the last group moves the target to where destroying it leads, with no group left or on its way; any other only counts down |
| `NvmfTarget.Target.OnShutdown` | examples/nvmf.cc:776-789 | sent again while starting, dropped while stopping; when running the target stops its subsystems and comes to rest where that leads |
| `NvmfTarget.Target.OnDestroyGroup` | examples/nvmf.cc:640-658 | the group is destroyed and its notice is under way |
| `NvmfTarget.Target.Deliver` | examples/nvmf.cc:399-695 | a message that is under way brings the end nearer, unless it is a shutdown sent again; any other changes nothing |
| `NvmfTarget.Target.Run` | examples/nvmf.cc:399-575 | over any order of deliveries and signals the state never goes back and the invariants hold |
| `NvmfTarget.Target.NothingLeft` | examples/nvmf.cc:725-789 | with nothing under way the target is up with every subsystem started and has not been interrupted, or has exited with no group left and the target destroyed if it was created, or hangs in its start because the RPC server or a poll group failed |
| `NvmfTarget.Target.Finish` | examples/nvmf.cc:674-797 | whatever state it is in, an interrupted target exits under every fair schedule, unless its start hangs for one of those reasons |
| `NvmfTarget.Target.GroupsAreCounted` | examples/nvmf.cc:628-672 | between messages the counter equals the groups alive, and from `FINI_TARGET` on there are none |
| `NvmfTarget.Target.EntryActionsRunOnce` | examples/nvmf.cc:725-768 | each entry action runs at most once, except that of `FINI_POLL_GROUPS`, which runs twice exactly when all stop calls failed at once |
| `NvmfTarget.StopFails` | examples/nvmf.cc:463-503 | a run with the discovery subsystem started and not to be stopped, in which that entry action runs twice |
| `ReactorScheduler.VisitsEachOnce` | examples/nvmf.cc:242-256 | the rounds of a search visit every reactor exactly once |
| `ReactorScheduler.Reactors.Schedule` | examples/nvmf.cc:219-263 | succeeds if and only if some reactor's core is acceptable, and takes the first in turn |
| `ReactorScheduler.Reactors.SpreadEvenly` | examples/nvmf.cc:219-263 | threads that accept every core are spread with counts differing by at most one |
| `ReactorScheduler.Reactors.NewThread` | examples/nvmf.cc:278-290 | the thread is at the end of the first acceptable ring in turn, or lost: exactly when no core is acceptable or that ring is full; never by a full ring while there are no more threads than a ring holds |
| `ReactorScheduler.Reactors.Dequeue` | examples/nvmf.cc:171-179 | taking a thread in hand keeps every thread in exactly one place |
| `ReactorScheduler.Reactors.AfterPoll` | examples/nvmf.cc:180-193 | destroyed, scheduled anew or put back at the end of the same ring; lost exactly when the ring it goes to is full or there is none, which with no more threads than a ring holds means that no core is acceptable; every other live thread stays in its one place |
| `ReactorScheduler.Reactors.Perform` | examples/nvmf.cc:171-290 | one operation and exactly what it does to rings, hands, masks and threads |
| `ReactorScheduler.Run` | examples/nvmf.cc:171-290 | over any sequence of creations, polls and changes of masks every thread stays in one place; none is lost as long as there are never more threads than a ring holds and every mask leaves a core |
| `ReactorScheduler.LosesAThread` | examples/nvmf.cc:180-193 | one reactor and one thread more than its ring holds: the last is accepted, and lost |

## Left out

- Whitespace collapsing of XML text, line numbers, error message text, user data and the memory pools' accounting.
- Flushes the XML parser makes only to build an error message, and the flush of a duplicate attribute's value on its error path; after an error no range is read.
- Numeric and boolean attribute and text accessors, deep cloning, shallow comparison, file input and output: they would only add easy members.
- Nodes of another document passed to an insertion, which the library asserts against and refuses.
- Byte order: numbers are written little-endian, as on the machines the gateway runs on.
- ZoneLayout.Settle: works on unbounded numbers; the source's zone counter has 32 bits and its addresses 64, which suffices for any map its `int` index can fill at the configured zone size.
- Hash collisions between populated objects; the populated map is modelled as the sequence of its entries.
- SHA-256, hexadecimal key text and the random choice of an index into the device list; results hold for every index.
- Contents of the pruned-object and transaction buffers, whose entries share one buffer in the source; only decisions and counts are modelled.
- The epoch counter, timing, the election and transaction roots' creation, and what happens to the object map at a follower's checkpoint.
- Replay mode, in which contexts are taken from and returned to pools by different keys.
- Merging chunks on a large GET and the inflight broadcast, which are stubs in the source.
- SPDK, NVMe, RDMA, Asio and ZooKeeper themselves, reduced to steps with any outcome; ZooKeeper watches are taken to fire once and sessions to end with their nodes.
- The migration poller and RPC server of the NVMe-oF target, and the reactors' shutdown loop.
- FailOver.EarlyStartBreaks: is stated while the service's sequence counter has not run out of 31 bits.
