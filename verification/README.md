# Katipo's storage, transport and relay, modelled and proved in Dafny

Katipo stores its data in LMDB, talks over ENet, and connects clients with hosts through a tracker. This
project models the parts of the three whose state is hardest to keep right, and proves what they promise.
`dafny verify dfyconfig.toml` checks everything.

**ENet's range coder** (`Words`, `RangeInterval`, `PpmModel`, `PpmDecoder`, `PpmFormat`, `SymbolPool`,
`PoolModel`, `SlotCoder`, `RangeCoderSteps`, `RangeCoder`, `StrayPool`, `StrayContexts`, `StraySteps`,
`StrayStart`, `StrayDecoder`). An order-2 PPM model drives a carry-less 32-bit range coder. `PpmModel` and
`PpmDecoder` say what is sent and read in terms of one frequency table per context; `RangeCoder` is the
source's code on its pool of 4096 symbols. Both methods are proved equal to the specification, and the
specification's decoder undoes its encoder; `PpmFormat` says in numbers what the tables hold. Encoder and
decoder create symbols in different orders; each pool is related to the model by a naming of its symbols, so
the two pools need not be equal. For a stream that no encoder made the code word leaves the interval at some
point, the tables mean nothing from there on, and the root's tree may lose its order; `StrayDecoder` goes on
from that point with what still holds, and proves that decompression of any input ends and stays inside pool
and output.

**LMDB's snapshots and free pages** (`SnapshotProtocol`, `SnapshotReuse`, `FreelistSave`). Readers, the writer
and the commit are a state machine whose steps are what other threads can see between: a reader's slot is
written and checked again, the slots are scanned one by one, the oldest-reader bound is cached and may be
stale. `SnapshotReuse` proves that pages do come back: what a scan stores is no lower than it must be, and
while nobody reads every run extends to one that uses a freed page again. `FreelistSave` is the loop that records the free pages
while recording them allocates and frees pages.

**LMDB's B+tree** (`BTree`, `BTreeUpdate`, `PageSplit`, `TreePages`, `TreeRoom`, `BTreeDatabase`). A database
with md_depth and md_entries refines a finite map under puts, deletes and gets, with splits, node moves,
merges and the root's growth and collapse. `PageSplit` is the search for the split point; `TreePages` proves
that no page ever gets more than it holds, and `TreeRoom` that pages of bytes have the room this asks for.

**LMDB's page layout and ID lists** (`PageLayout`, `IdLists`, `IdListOps`). Pointers and nodes on a page's
bytes, and the sorting, merging, searching and run-finding on counted arrays.

**ENet's reliable channel** (`SequenceWindows`, `Fragments`, `ReliableReceiver`, `ReliableChannel`,
`ReliableSender`, `ReliableProtocol`, `ReliableDelivery`, `ReliableRefinement`, `LinkedList`). The receiver's
and the sender's code on their queues, and a protocol over every run with loss, repetition and reordering.
`ReliableDelivery` says which messages some run delivers at all, and `ReliableRefinement` that the sender's
code takes the steps of the protocol's sender. Numbers of the protocol count from 1 without end; the 16-bit
numbers of the code are their remainders. Sixteen windows of 4096 numbers, eight of them free, are the values
of ENet's header.

**ENet's bandwidth allocator** (`BandwidthThrottle`). Both water-filling loops, on 32-bit integers.

**Katipo's tracker** (`ClientRegistry`, `ChunkedReplies`, `RelayProtocol`, `RelayAnswers`). The two-thread
client registry behind its queue, and requests relayed to hosts with replies that come back in chunks. Every
callback is made or on its way.

**LMDB's dump and load** (`DumpLoad`). The text codec with its in-place parser and growing line buffer.

Some properties hold only under a condition, and the exact condition is proved:

- A message can be delivered if and only if neither it nor one before it on the channel reaches over too many
  windows: the number before its first, modulo 4096, plus the count of its fragments must stay below 32768
  (`ReliableDelivery.DeliverableIff`, `TooLongIs`). The sender accepts up to 1048576 fragments, and a message
  that is too long, with all after it, is never delivered (`NeverDelivered`, `EightWindowsNeverArrive`).
- A limit for one peer keeps it within its own bandwidth if and only if it has less than 32·(bandwidth + 1)
  bytes waiting, because the limit is never less than 1 (`BandwidthThrottle.CapKeeps`, `CapExceeds`). All
  peers together stay within the budget in any case.
- A peer is limited if and only if it exceeds its own bandwidth at the level of the first pass, which may be
  above the final one (`BandwidthThrottle.ThrottleOutgoing`, `LimitedAtFirstLevelOnly`).
- What peers are told bounds all that arrives if and only if each of them has said how much it sends and the
  bandwidth has a unit for each, because 0 means no limit (`BandwidthThrottle.LimitIncoming`,
  `UndeclaredIsUnbounded`).
- A join keeps the tracker's two maps mutually inverse if and only if the peer has not joined under another ID
  before (`ClientRegistry.JoinKeepsInverse`, `SecondIdBreaks`).
- An old command is turned away if and only if it is at most nine windows late
  (`SequenceWindows.LateIsDiscarded`, `TenWindowsLate`); a later one would be taken for a new one.
- When mdb_page_split halves a page without a look at the sizes, both halves hold their nodes if and only if
  what the new node lacks on the page is no more than what goes to the other half (`PageSplit.HalvesFitIff`);
  it can be more (`HalfTooFull`), but not while the new node is at most sixteen times as large as the
  smallest.
- readline stays inside its buffer if and only if the line does not start with a NUL
  (`DumpLoad.Loader.ReadLine`).

The compressor reads outside its input buffers only if a buffer after the first is empty, and does so whenever
the encoding of what comes before fits the output (`RangeCoderModule.RangeCoder.Compress`).

Where code and comments differ the code is followed. A malformed key line makes mdb_load print an error but
commit what it has loaded; a malformed value line makes it abort. One round of the bandwidth allocator takes a
limited peer's bandwidth, not its data, off the data total, so part of the budget can stay unused, the level
falls from the first pass to the second, and the second never limits anybody.

## Model

| member | source | states |
|---|---|---|
| `RangeInterval.SlotInside` | thirdParty/enet-1.3.18/compress.c:121-126 | A slot of any context fits the coder: the step is never 0, and under·step + count·step stays within the range, so no product leaves 32 bits. |
| `RangeInterval.ClipShrinks` | thirdParty/enet-1.3.18/compress.c:128-132 | The clipped range is never larger and ends exactly at the next 2^24 boundary above the low end, so the top bytes agree afterwards. |
| `RangeInterval.ShiftKeepsValid` | thirdParty/enet-1.3.18/compress.c:126-136 | One round of the normalising loop keeps low + range at most 2^32 (equal only with low at least 2^24) and moves a measure down, so the loop ends. |
| `RangeInterval.NormalizeNests` | thirdParty/enet-1.3.18/compress.c:126-136 | Every stream that continues what the loop sent with a code word in the new interval has a code word in the old one, whatever was clipped or shifted out. |
| `RangeInterval.ShiftOfLoose` | thirdParty/enet-1.3.18/compress.c:354-371 | An interval that reaches over the end of the 32-bit words becomes, in one round of the loop, one that does not, or a shorter one, and never empty. |
| `RangeInterval.CodeInEveryInterval` | thirdParty/enet-1.3.18/compress.c:121-146 | The whole output for any slots, flushed, is a code word inside every interval the encoder passed through. |
| `RangeInterval.ReadInSlot` | thirdParty/enet-1.3.18/compress.c:352-352 | For any code word inside a slot's interval the decoder's quotient falls in that slot. |
| `RangeInterval.DecodeStep` | thirdParty/enet-1.3.18/compress.c:344-371 | One decoding step undoes one encoding step: the quotient falls in the coded slot, and consuming the slot leaves the decoder exactly where the encoder's remaining output starts. |
| `RangeInterval.EndDecodesEscape` | thirdParty/enet-1.3.18/compress.c:139-146 | Once the flushed low end is all that is left, every context reads quotient 0, which is its escape, and that stays so for ever. |
| `RangeInterval.EmitConcat` | thirdParty/enet-1.3.18/compress.c:121-146 | Output is additive: coding two slot sequences one after the other sends the first one's bytes and then codes the second from where it ended. |
| `PpmModel.GrownFits` | thirdParty/enet-1.3.18/compress.c:312-314 | Before a context is rescaled its counts fit 8 bits and its total 16 bits, and total = escapes + sum of counts + 256·minimum. |
| `PpmModel.LearnedOk` | thirdParty/enet-1.3.18/compress.c:301-314 | Learning a byte, with the escape update and the rescale, keeps a context's table consistent. |
| `PpmModel.SlotsFromLocal` | thirdParty/enet-1.3.18/compress.c:286-329 | What a byte's coding sends from a context on does not depend on what longer contexts have learned. |
| `PpmModel.LearnCommutes` | thirdParty/enet-1.3.18/compress.c:598-615 | Two different contexts can learn a byte in either order. |
| `PpmModel.FoundFirst` | thirdParty/enet-1.3.18/compress.c:562-615 | The decoder's order, the context that knows the byte first and the longer ones patched afterwards, gives the model that the encoder's order from the top down gives. |
| `PpmModel.LearnThroughFirst` | thirdParty/enet-1.3.18/compress.c:286-329 | Learning in all contexts down to the first that knows the byte is the encoder's loop with its early exit. |
| `PpmModel.AdvanceAtFirst` | thirdParty/enet-1.3.18/compress.c:331-336 | The next prediction, the order count and the pool reset are the same on both sides. |
| `PpmFormat.CountsAre` | thirdParty/enet-1.3.18/compress.c:301-329 | After any bytes of which none comes more than 84 times, each count of a context is twice the byte's occurrences and 5 escapes stand for each different byte; in the root it is three times and there is one escape, over a minimum of 1 for each byte. |
| `PpmFormat.EncodingOfTwo` | thirdParty/enet-1.3.18/compress.c:246-343 | The stream itself: the message 61 61 is sent as 61 FE 7F 46. |
| `PpmDecoder.LocateUnique` | thirdParty/enet-1.3.18/compress.c:373-413 | A byte is found by a code point exactly when the code point is in its slot: no two bytes share one. |
| `PpmDecoder.FindUndoes` | thirdParty/enet-1.3.18/compress.c:529-596 | Decoding one byte finds the coded byte through the same escapes, stops in the first context that knows it, and leaves the decoder at the rest of the stream. |
| `PpmDecoder.FindEnds` | thirdParty/enet-1.3.18/compress.c:576-580 | At the end of the stream every context escapes down to the root, whose escape ends the message. |
| `PpmDecoder.DecodeUndoes` | thirdParty/enet-1.3.18/compress.c:520-624 | From any model both sides agree on, decoding undoes coding for the whole rest of the message. |
| `PpmDecoder.RoundTrip` | thirdParty/enet-1.3.18/compress.c:246-627 | For every byte sequence, decompressing its compressed form gives it back when the output is long enough, and fails when it is not, through every rescale and pool reset. |
| `PpmDecoder.EncodingNotEmpty` | thirdParty/enet-1.3.18/compress.c:257-258 | Only the empty message has an empty encoding, so a compressed size of 0 always means failure. |
| `PpmDecoder.OnesGoAstray` | thirdParty/enet-1.3.18/compress.c:344-352 | Four bytes 0xFF give a first quotient of 257, which no slot of the empty model has. |
| `SymbolPool.DescendCounts` | thirdParty/enet-1.3.18/compress.c:159-199 | The encoder's walk agrees with a plain frequency table: it adds exactly the counts of the smaller bytes to `under`, counts the byte up, restores every partial sum and touches no other context's tree. |
| `SymbolPool.HalveCounts` | thirdParty/enet-1.3.18/compress.c:90-105 | enet_symbol_rescale halves every count of the tree (rounding up), restores every partial sum and returns the new sum. |
| `SymbolPool.SubtreeFrame` | thirdParty/enet-1.3.18/compress.c:159-199 | A tree depends only on its own symbols and the counts in its range. |
| `PoolModel.EncodeRepresents` | thirdParty/enet-1.3.18/compress.c:159-199 | On a pool that represents a model, counting a byte up in one context gives a pool that represents the changed model, with one more symbol exactly when the byte was new there, and returns the byte's slot. |
| `PoolModel.LinkRepresents` | thirdParty/enet-1.3.18/compress.c:293-295 | Setting the suffix link of the symbol that waits for it completes the representation. |
| `PoolModel.HalveRepresents` | thirdParty/enet-1.3.18/compress.c:107-112 | Rescaling a context in the pool is rescaling its table in the model. |
| `PoolModel.NewPoolRepresents` | thirdParty/enet-1.3.18/compress.c:148-157 | A reset pool represents the empty model. |
| `SlotCoder.TopBytesDiffer` | thirdParty/enet-1.3.18/compress.c:128-128 | The source's test `(low ^ (low + range)) >= 2^24`, on the words it is made on, is true exactly when the interval straddles a boundary of the top byte, which is what the specified loop asks. |
| `SlotCoder.EncodeSlot` | thirdParty/enet-1.3.18/compress.c:121-137 | The macro sends exactly the specified bytes and leaves the specified interval, or reports a full output exactly when they do not fit. |
| `SlotCoder.FlushLow` | thirdParty/enet-1.3.18/compress.c:139-146 | The flush writes the bytes of the low end without its trailing zeros, or reports a full output. |
| `SlotCoder.ReadCode` | thirdParty/enet-1.3.18/compress.c:352-352 | The read quotient is the specified one, computed on 32-bit words. |
| `SlotCoder.ReadBytes` | thirdParty/enet-1.3.18/compress.c:354-371 | The normalising loop ends with a range of at least 2^16 from any low end and any range but 0, and does what is specified for an interval inside the words. |
| `SlotCoder.RoundEnds` | thirdParty/enet-1.3.18/compress.c:354-371 | Every round brings it nearer its end, wherever it started. |
| `SlotCoder.DecodeSlot` | thirdParty/enet-1.3.18/compress.c:354-371 | The macro consumes exactly what the specification of the decoder consumes, zeros standing in for missing input. |
| `SlotCoder.SeedCode` | thirdParty/enet-1.3.18/compress.c:344-350 | The first four bytes, or zeros for missing ones, are the code word. |
| `RangeCoderSteps.AtNode` | thirdParty/enet-1.3.18/compress.c:384-411 | At each node the decoder's comparisons with `after` and `after - before` are comparisons of the bytes, and its end cases compute the byte to create. |
| `RangeCoderModule.RangeCoder.ContextEncode` | thirdParty/enet-1.3.18/compress.c:159-199 | The in-place walk equals the specified walk, for every byte and pool. |
| `RangeCoderModule.RangeCoder.RescaleSymbols` | thirdParty/enet-1.3.18/compress.c:90-105 | The loop with recursion equals the specified rescaling of the tree. |
| `RangeCoderModule.RangeCoder.SettleContext` | thirdParty/enet-1.3.18/compress.c:301-314 | Escapes, totals and the rescale of one context follow the model. |
| `RangeCoderModule.RangeCoder.EncodeByte` | thirdParty/enet-1.3.18/compress.c:286-329 | The loop over the contexts sends the byte's slots and makes the pool represent the model that has learned it. |
| `RangeCoderModule.RangeCoder.NextInput` | thirdParty/enet-1.3.18/compress.c:331-336 | The next prediction and the pool reset follow the model; the pool always has room for another byte. |
| `RangeCoderModule.RangeCoder.Compress` | thirdParty/enet-1.3.18/compress.c:246-342 | For all input buffers the result is the encoding of their concatenation if it fits the output and 0 if it does not; every symbol index used is inside the pool of 4096. A byte outside the buffers is read only if a buffer after the first is empty, and then is read whenever the encoding of what comes before it fits the output. |
| `RangeCoderModule.RangeCoder.ContextDecode` | thirdParty/enet-1.3.18/compress.c:373-438 | The walk by code point finds the byte whose slot holds it, with its `under` and count, and makes the same change to the pool as the encoder's walk for that byte. |
| `RangeCoderModule.RangeCoder.DecodeIn` | thirdParty/enet-1.3.18/compress.c:534-567 | One context's part of decoding: skipped, escaped from, or the byte found, counted up and settled as the model does it. |
| `RangeCoderModule.RangeCoder.FindByte` | thirdParty/enet-1.3.18/compress.c:529-596 | The loop over the contexts finds the byte the specification finds. |
| `RangeCoderModule.RangeCoder.PatchContexts` | thirdParty/enet-1.3.18/compress.c:598-615 | The patch loop makes the longer contexts learn the byte and sets all suffix links. |
| `RangeCoderModule.RangeCoder.Follow` | thirdParty/enet-1.3.18/compress.c:498-627 | For every input the result is the specified decoding: the message, or failure when it is longer than the output; a code word that leaves the slots of its context, which no compressed form has, ends it with all variables as the source has them there. |
| `StrayDecoder.Decompress` | thirdParty/enet-1.3.18/compress.c:498-627 | For every input whatever, also one that no encoder made, decompression ends, divides by no 0, uses no symbol outside the pool of 4096 and writes no byte outside the output; for every compressed form it gives the message back, or 0 if the output is too short. |
| `StrayDecoder.Walk` | thirdParty/enet-1.3.18/compress.c:373-438 | For any 16-bit code the walk through a context's tree ends, and either counts one symbol of the context up, or adds one, or, outside the root, is the result 0. |
| `StrayDecoder.Settle` | thirdParty/enet-1.3.18/compress.c:593-596 | Escapes, total and the rescale keep each total the sum of its parts, in 16 bits, and each count in 8 bits, whatever was found. |
| `StrayDecoder.Try` | thirdParty/enet-1.3.18/compress.c:534-567 | One context's part for any code word: the divisor is not 0 and the range stays at least 2^16. |
| `StrayDecoder.Search` | thirdParty/enet-1.3.18/compress.c:529-596 | The loop over the contexts ends at the root for any code word. |
| `StrayDecoder.Patch` | thirdParty/enet-1.3.18/compress.c:598-615 | The patch loop comes back to the context of the search, although it sets suffix links on its way, and finds room in the pool for its symbols. |
| `StrayDecoder.Continue` | thirdParty/enet-1.3.18/compress.c:520-626 | The decoder's loop from the middle of any byte on ends with at most the output's length. |
| `StrayPool.HalveTreeIs` | thirdParty/enet-1.3.18/compress.c:90-105 | On a tree whose links meet no symbol twice, ordered or not, enet_symbol_rescale halves exactly its symbols and returns the sum of the new counts. |
| `StrayPool.TreeGrows` | thirdParty/enet-1.3.18/compress.c:384-411 | A new symbol under one of the tree's makes it a tree with one symbol more. |
| `StrayContexts.CountedSound` | thirdParty/enet-1.3.18/compress.c:373-438 | Counting a symbol up, or adding one, leaves all contexts sound but for the total of its own, which is short by the step. |
| `StrayContexts.HalvedSettle` | thirdParty/enet-1.3.18/compress.c:107-112 | A rescaled context is sound again, and its total is well below 2^16. |
| `StrayContexts.LinkSound` | thirdParty/enet-1.3.18/compress.c:604-615 | Linking a symbol to one of lower order keeps the pool sound. |
| `StraySteps.EncodeCounted` | thirdParty/enet-1.3.18/compress.c:159-199 | The encoder's walk counts one symbol up in any tree, ordered or not. |
| `StrayStart.RepresentsSound` | thirdParty/enet-1.3.18/compress.c:520-526 | A pool that represents a model is sound. |
| `SnapshotProtocol.MoveKeepsPages` | thirdParty/liblmdb/mdb.c:1860-1904 | Loading a freeDB record, allocating from any source, freeing to any list and settling loose pages neither lose nor duplicate a page. |
| `SnapshotProtocol.MoveKeepsUnseen` | thirdParty/liblmdb/mdb.c:2217-2263 | No page work puts a page of a snapshot at least as old as the cached oldest-reader bound within the writer's reach. |
| `SnapshotProtocol.ReaderStepInv` | thirdParty/liblmdb/mdb.c:2749-2754 | A reader whose slot passes the publish-and-recheck loop is never below the cached bound, even while a scan of the slots is under way. |
| `SnapshotProtocol.ScanSlotInv` | thirdParty/liblmdb/mdb.c:2104-2121 | A scan that looks at the slots one by one, with readers moving in between, ends with a bound not above any reader that holds its slot; SnapshotReuse.ScanBound says that it is not needlessly low. |
| `SnapshotProtocol.CommitConserves` | thirdParty/liblmdb/mdb.c:807-808 | After a commit that saved the freelist every page up to the last is used once or listed in one record, never both. |
| `SnapshotProtocol.CommitKeepsClear` | thirdParty/liblmdb/mdb.c:2236-2262 | The records of a commit that are old enough to be loaded list no page of an older readable snapshot. |
| `SnapshotProtocol.NextInv` | thirdParty/liblmdb/mdb.c:2104-2121 | Every step of readers and writer keeps the joint invariant. |
| `SnapshotProtocol.SnapshotIsolation` | thirdParty/liblmdb/mdb.c:2158-2326 | In every run no page that mdb_page_alloc returns, from any source, is reachable from the root a reader has copied, and no page being written is. |
| `SnapshotProtocol.PageConservation` | thirdParty/liblmdb/mdb.c:807-808 | In every run both meta pages account for every page from 2 to their last page exactly once. |
| `SnapshotReuse.ScanBound` | thirdParty/liblmdb/mdb.c:2104-2121 | In every run the bound of a scan under way is the last transaction, or what some reader's slot held while the scan was under way. |
| `SnapshotReuse.StoredBound` | thirdParty/liblmdb/mdb.c:2104-2121 | In every run the oldest-reader bound that a scan stores is the transaction before the writer's, or what some reader's slot held during the scan: it is no lower than it must be. |
| `SnapshotReuse.RecordReused` | thirdParty/liblmdb/mdb.c:2236-2326 | While no reader holds a slot, any run whose writer has not read a record below the last transaction extends to one that reads it and hands out each of its pages, and nothing else. |
| `SnapshotReuse.PageReused` | thirdParty/liblmdb/mdb.c:2217-2326 | While no reader holds a slot, a page of any record below the last transaction can be handed out in this transaction. |
| `SnapshotReuse.FreedComesBack` | thirdParty/liblmdb/mdb.c:2158-2326 | A page that a transaction frees can be handed out again two transactions later, if no reader holds a slot. |
| `SnapshotReuse.FileGrows` | thirdParty/liblmdb/mdb.c:2284-2318 | A writer can always take the page after the last one, which no snapshot, record or list has, give it up and take it again. |
| `SnapshotReuse.ReaderStarts` | thirdParty/liblmdb/mdb.c:2749-2754 | A reader can always start, and gets the snapshot that was published last. |
| `FreelistSave.MoveIsNext` | thirdParty/liblmdb/mdb.c:3084-3298 | Each piece of page work in the history of a freelist save is a step of the protocol. |
| `FreelistSave.SaveCommits` | thirdParty/liblmdb/mdb.c:3080-3298 | A finished save whose history starts where a run of the protocol stands extends that run, step by step, to the commit; the meta page it writes, and the other one, account for every page exactly once. |
| `FreelistSave.KeptByDelete` | thirdParty/liblmdb/mdb.c:3158-3167 | Deleting the first record keeps the account of reserved room, also when it restarts after more records were loaded. |
| `FreelistSave.KeptByReserve` | thirdParty/liblmdb/mdb.c:3224-3249 | Rewriting the record at head_id keeps total_room equal to the sum of the reserved lengths, whatever length is chosen. |
| `FreelistSave.FillingNext` | thirdParty/liblmdb/mdb.c:3277-3296 | Filling the next record keeps the pages placed so far disjoint and the room left sufficient. |
| `FreelistSave.RoomAhead` | thirdParty/liblmdb/mdb.c:3277-3296 | While pages remain there is a reserved record left for them, so the fill loop never runs into a newer record. |
| `FreelistSave.FilledIsSaved` | thirdParty/liblmdb/mdb.c:3250-3298 | When every page is placed the freeDB is what the protocol demands of a commit. |
| `FreelistSave.Commit.Save` | thirdParty/liblmdb/mdb.c:3080-3298 | Whatever pages the freeDB's own calls allocate, free and load, when the loop ends each freed, reusable or loose page is in exactly one record, unread records are untouched, the commit conserves pages, and the pages moved by exactly what those calls did. The loop ends, or has made as many calls as are given; it ends within /freeDB/ + pglast + 4 calls if these move no page. |
| `FreelistSave.Commit.Work` | thirdParty/liblmdb/mdb.c:2158-2326 | A call's page work, any number of records read and of pages taken and given up, does exactly what the protocol's steps for it say. |
| `FreelistSave.Commit.MakeRoom` | thirdParty/liblmdb/mdb.c:3149-3250 | The loop ends with all records read deleted, the freed pages written and room reserved for the others, however often it starts over. |
| `FreelistSave.Commit.DeleteRead` | thirdParty/liblmdb/mdb.c:3158-3167 | The records already loaded are deleted, also those loaded by the deletions themselves; without such, each call deletes one. |
| `FreelistSave.Commit.WriteFreed` | thirdParty/liblmdb/mdb.c:3169-3204 | This transaction's record is rewritten until writing it frees no more pages; then it lists all freed pages and freecnt is their number. |
| `FreelistSave.Commit.Fill` | thirdParty/liblmdb/mdb.c:3268-3298 | The reserved records share out the pages, smallest first. |
| `BTree.NodeSearch` | thirdParty/liblmdb/mdb.c:5297-5386 | On sorted keys the halving loop returns the smallest index whose key is not below the key, or the number of keys, and says whether it is equal; slot 0 of a branch is passed over. |
| `BTree.PickBounds` | thirdParty/liblmdb/mdb.c:5532-5551 | The child followed has bounds that hold the key. |
| `BTree.AroundChild` | thirdParty/liblmdb/mdb.c:5532-5551 | All entries before the child followed are below the key and all after it are above. |
| `BTree.TidyOrder` | thirdParty/liblmdb/mdb.c:5506-5583 | A tree with correct separators lists its entries in strictly growing order. |
| `BTree.SegmentReplaced` | thirdParty/liblmdb/mdb.c:8621-9033 | Replacing neighbouring slots by others with the same bounds keeps all separators right and replaces exactly their entries. |
| `BTree.PutLookup` | thirdParty/liblmdb/mdb.c:6957-6988 | What every lookup finds after a put. |
| `BTree.CutLookup` | thirdParty/liblmdb/mdb.c:8442-8455 | What every lookup finds after a delete. |
| `BTreeUpdate.GrowBranchOk` | thirdParty/liblmdb/mdb.c:8621-9033 | Splitting a branch page gives two pages bounded by the key that goes up, with the same entries and at least two children each; the split index is any that PageSplit.BranchSplits allows. |
| `BTreeUpdate.InsertOk` | thirdParty/liblmdb/mdb.c:6555-6988 | A put at any depth keeps all leaves at one depth and all separators right, splits or not, and changes the list of entries by exactly that put. |
| `PageSplit.FindSplit` | thirdParty/liblmdb/mdb.c:8785-8815 | The loops that look for the split point, upwards or downwards from the side of the new node, compute the specified index. |
| `PageSplit.LeafSplits` | thirdParty/liblmdb/mdb.c:8785-8815 | Whatever the sizes of its nodes, an overfull leaf with none above half a page is split into two leaves that have nodes. |
| `PageSplit.BranchSplits` | thirdParty/liblmdb/mdb.c:8785-8815 | Whatever the sizes of its nodes, an overfull branch page with none above a third of a page is split into two with at least two children each. |
| `PageSplit.SizedIsSane` | thirdParty/liblmdb/mdb.c:8785-8815 | So a tree whose pages hold bytes and split where the source splits them is one that the theorems on puts and deletes speak of. |
| `PageSplit.SearchIs` | thirdParty/liblmdb/mdb.c:8785-8815 | Where the search stops: the nodes passed fit a page, and the next one does not or the middle is reached. |
| `PageSplit.SplitFits` | thirdParty/liblmdb/mdb.c:8785-8815 | If the sizes are looked at, both pages hold their nodes, for any page that held its nodes before the new one. |
| `PageSplit.HalvesFitIff` | thirdParty/liblmdb/mdb.c:8785-8790 | If the page is only halved, both halves hold their nodes if and only if what the new node lacks on the page is no more than what goes to the other half. |
| `PageSplit.HalvesFit` | thirdParty/liblmdb/mdb.c:8785-8790 | So it is whenever the new node is at most sixteen times as large as the smallest. |
| `PageSplit.HalfTooFull` | thirdParty/liblmdb/mdb.c:8785-8790 | Otherwise a half may be too full: a page of 4080 bytes with 33 nodes and a new one of 254 bytes give a right half of 4130. |
| `TreeRoom.ThinIs` | thirdParty/liblmdb/mdb.c:8268-8283 | A leaf is mended if and only if it is less than a quarter full or empty, a branch page if and only if it is less than a thousandth full or has fewer than two children. |
| `TreeRoom.SizedIsRoomy` | thirdParty/liblmdb/mdb.c:8258-8439 | Pages of bytes have the room that splits, moves and merges need: whatever two pages mdb_rebalance merges fit one. |
| `TreePages.InsertFits` | thirdParty/liblmdb/mdb.c:8621-9033 | A put at any depth leaves no page with more than it holds. |
| `TreePages.LeafSplitIff` | thirdParty/liblmdb/mdb.c:6948-6966 | A leaf is split if and only if its new contents do not fit, at the split point, and the first key of its right half goes up. |
| `TreePages.BranchSplitIff` | thirdParty/liblmdb/mdb.c:8621-9033 | A branch page is split if and only if a child was split and the new node does not fit; the key at the split point goes up and is taken off the right page. |
| `BTreeUpdate.MoveRightBranch` | thirdParty/liblmdb/mdb.c:7864-8082 | Moving a branch node from the right neighbour: the moved node gets the lowest key under it and the neighbour's new first key goes to the parent. |
| `BTreeUpdate.MoveLeftBranch` | thirdParty/liblmdb/mdb.c:7864-8082 | Moving a branch node from the left neighbour, where the old first node must get the lowest key under it. |
| `BTreeUpdate.MergeBranch` | thirdParty/liblmdb/mdb.c:8092-8159 | Merging two branch pages, the right one's keyless first node getting the lowest key under it. |
| `BTreeUpdate.RebalanceOk` | thirdParty/liblmdb/mdb.c:8258-8439 | Rebalancing keeps all entries in order and leaves every page at least one entry or two children; a merge costs the parent one child. |
| `BTreeUpdate.DeleteOk` | thirdParty/liblmdb/mdb.c:8442-8547 | A delete at any depth keeps the tree tidy but for its top page and cuts exactly the key from the list of entries. |
| `TreePages.RebalanceDoes` | thirdParty/liblmdb/mdb.c:8258-8439 | The child is left alone if it is above the threshold with enough nodes; otherwise it gets exactly one node of its neighbour if that one is above the threshold and can spare it; otherwise the two become one page. No page gets more than it holds. |
| `TreePages.LeafIsMended` | thirdParty/liblmdb/mdb.c:8442-8547 | The leaf that lost the key is what is rebalanced. |
| `TreePages.DeleteFits` | thirdParty/liblmdb/mdb.c:8442-8547 | A delete at any depth leaves no page with more than it holds. |
| `BTreeDatabase.MapLookup` | thirdParty/liblmdb/mdb.c:5802-5821 | A lookup in a sorted entry list is a lookup in its map. |
| `BTreeDatabase.SearchBranch` | thirdParty/liblmdb/mdb.c:5532-5551 | The step by mdb_node_search, with its index adjustment, goes to the child that the key belongs to. |
| `BTreeDatabase.Database.Get` | thirdParty/liblmdb/mdb.c:5802-5821 | mdb_get returns what the map holds, and nothing otherwise. |
| `BTreeDatabase.Database.Descend` | thirdParty/liblmdb/mdb.c:5506-5583 | The loop ends at a sorted leaf in which the key is found exactly if the tree has it. |
| `BTreeDatabase.Database.Put` | thirdParty/liblmdb/mdb.c:9035-9059 | mdb_put changes the map by exactly the pair, or leaves it alone with MDB_NOOVERWRITE on an existing key; no page gets more than it holds. |
| `BTreeDatabase.Database.Delete` | thirdParty/liblmdb/mdb.c:8549-8619 | mdb_del removes exactly the key and reports whether it was there; no page gets more than it holds. |
| `BTreeDatabase.Database.RebalanceRoot` | thirdParty/liblmdb/mdb.c:8286-8365 | At the root an empty leaf is given up and a branch with one child collapses; md_depth stays the depth of all leaves. |
| `BTreeDatabase.Database.EntriesCount` | thirdParty/liblmdb/mdb.c:8455-8455 | md_entries is the number of keys after any puts and deletes. |
| `PageLayout.TilingInsert` | thirdParty/liblmdb/mdb.c:7338-7345 | A node placed just below the others keeps the nodes tiling the page from mp_upper to its end. |
| `PageLayout.TilingDelete` | thirdParty/liblmdb/mdb.c:7446-7464 | Moving the lower nodes up over a deleted one keeps the tiling. |
| `PageLayout.TilingResize` | thirdParty/liblmdb/mdb.c:7803-7827 | Moving a node's header and the lower nodes by what its key grows or shrinks keeps the tiling. |
| `PageLayout.NodeMoved` | thirdParty/liblmdb/mdb.c:7459-7460 | A node copied elsewhere, byte by byte, is the same node. |
| `PageLayout.AddTiles` | thirdParty/liblmdb/mdb.c:7336-7345 | Writing a node below the others inserts it into the node list; all other nodes keep their bytes. |
| `PageLayout.DeleteTiles` | thirdParty/liblmdb/mdb.c:7446-7464 | The move and the pointer adjustment delete exactly the node; all others keep their bytes. |
| `PageLayout.RekeyTiles` | thirdParty/liblmdb/mdb.c:7803-7837 | The move, the new key size and the key bytes replace exactly that node of a branch page. |
| `PageLayout.Page.SpaceAccounted` | thirdParty/liblmdb/mdb.c:7313-7313 | Header, pointers, SIZELEFT and the even-rounded nodes add up to the page. |
| `PageLayout.Page.NodeAdd` | thirdParty/liblmdb/mdb.c:7288-7405 | mdb_node_add acts on the page's node list as insert at the index, or reports a full page exactly when node and pointer do not fit; the pointers are two bytes each of the page. |
| `PageLayout.Page.AddLeaf` | thirdParty/liblmdb/mdb.c:7316-7336 | On a leaf, data that makes the node larger than me_nodemax is replaced by the overflow page's number. |
| `PageLayout.Page.NodeDel` | thirdParty/liblmdb/mdb.c:7415-7465 | mdb_node_del removes exactly the node from the list. |
| `PageLayout.Page.UpdateKey` | thirdParty/liblmdb/mdb.c:7773-7840 | mdb_update_key replaces exactly that node's key, or reports that it does not fit exactly when the growth exceeds SIZELEFT. |
| `PageLayout.HeadIs` | thirdParty/liblmdb/mdb.c:965-968 | The bytes of a node's header on a little-endian machine: data size, flags and key size, low bytes first. |
| `IdLists.Scans` | thirdParty/liblmdb/midl.c:259-261 | The two unguarded inner loops stop inside the segment. |
| `IdLists.Partition` | thirdParty/liblmdb/midl.c:245-266 | One partitioning permutes only the segment and leaves everything left of the split at least as large as everything right of it. |
| `IdLists.InsertionSort` | thirdParty/liblmdb/midl.c:232-240 | The final insertion sort, which tests only i>=1, never crosses the segment's start. |
| `IdLists.StackDepth` | thirdParty/liblmdb/midl.c:267-276 | Going on with the smaller half keeps jstack inside istack for every int-sized list. |
| `IdLists.Sort` | thirdParty/liblmdb/midl.c:220-279 | The list becomes a descending permutation of itself. |
| `IdListOps.Search` | thirdParty/liblmdb/midl.c:34-67 | The position of the id, or of the first smaller element. |
| `IdListOps.XMerge` | thirdParty/liblmdb/midl.c:201-213 | Two descending lists are merged in place into the descending list of their multiset union, the delimiter alone stopping the scan. |
| `IdListOps.EndpointsSuffice` | thirdParty/liblmdb/mdb.c:2209-2218 | Without duplicates the endpoint test is true exactly at a run of num consecutive pages. |
| `IdListOps.FindRun` | thirdParty/liblmdb/mdb.c:2209-2218 | A run is found whenever the list holds one, and it is the one with the lowest pages. |
| `IdListOps.TakeRun` | thirdParty/liblmdb/mdb.c:2310-2314 | The in-place move takes out exactly the run and keeps the order of the rest. |
| `IdListOps.RunRemoved` | thirdParty/liblmdb/mdb.c:2310-2314 | The list stays strictly descending and loses exactly the run's pages. |
| `IdListOps.SearchId2` | thirdParty/liblmdb/midl.c:281-314 | The position of the id, or of the first larger element. |
| `IdListOps.InsertId2` | thirdParty/liblmdb/midl.c:316-345 | Sorted insertion, or -1 for a duplicate and -2 for a full list, with the list unchanged. |
| `SequenceWindows.LateIsDiscarded` | thirdParty/enet-1.3.18/peer.c:863-871 | An old number is turned away if and only if it is at most nine windows late. |
| `SequenceWindows.TenWindowsLate` | thirdParty/enet-1.3.18/peer.c:863-871 | Number 1, when 40960 was delivered last, is taken for a new one. |
| `SequenceWindows.AheadIsSorted` | thirdParty/enet-1.3.18/peer.c:605-620 | Of the numbers ahead exactly those of the current and the next six windows are queued and acknowledged. |
| `SequenceWindows.WireOrder` | thirdParty/enet-1.3.18/peer.c:881-903 | Comparing wire numbers with the wrap rule is comparing true numbers, for any two within 65536 after the current one. |
| `Fragments.CutTiles` | thirdParty/enet-1.3.18/peer.c:150-185 | The fragments cover the packet without gap or overlap. |
| `Fragments.CutLength` | thirdParty/enet-1.3.18/peer.c:125-126 | There are exactly ceil(length / room) fragments. |
| `Fragments.CutAt` | thirdParty/enet-1.3.18/peer.c:150-185 | Fragment k begins at k times the room and fills it, but for the last one, which has what is left. |
| `Fragments.MissingOneLess` | thirdParty/enet-1.3.18/protocol.c:627-631 | Setting a clear bit takes one off the count of clear bits. |
| `Fragments.MissingNone` | thirdParty/enet-1.3.18/protocol.c:640-641 | The count is 0 exactly when all bits are set. |
| `Fragments.PatchKeeps` | thirdParty/enet-1.3.18/protocol.c:633-638 | Storing a fragment at its offset stays inside the packet and keeps all stored fragments in place, in any order and with any repeats. |
| `Fragments.CompleteIsEqual` | thirdParty/enet-1.3.18/protocol.c:640-641 | When nothing is missing the buffer is the original packet. |
| `ReliableReceiver.Channel.Search` | thirdParty/enet-1.3.18/peer.c:881-903 | The search from the back of the queue, with its break and continue cases, returns the specified place. |
| `ReliableReceiver.Channel.DispatchReliable` | thirdParty/enet-1.3.18/peer.c:807-844 | The walk over the ready front and the move of it to the dispatched list. |
| `ReliableReceiver.Channel.QueueIncoming` | thirdParty/enet-1.3.18/peer.c:861-904 | A command is discarded or put at its place. |
| `ReliableReceiver.Channel.HandleSendReliable` | thirdParty/enet-1.3.18/protocol.c:446-466 | An unfragmented command is refused, discarded or queued and dispatched. |
| `ReliableReceiver.Channel.HandleSendFragment` | thirdParty/enet-1.3.18/protocol.c:562-645 | A fragment is refused, ignored or stored, the packet being queued with its first fragment and dispatched with its last. |
| `ReliableReceiver.Channel.Receive` | thirdParty/enet-1.3.18/protocol.c:1194-1221 | A command is handled and then acknowledged unless its window is one of the two in between. |
| `ReliableChannel.SearchFinds` | thirdParty/enet-1.3.18/peer.c:881-903 | In a queue of messages ahead, in order, the search by wire numbers finds the message or the place between its neighbours. |
| `ReliableChannel.FrontIsNext` | thirdParty/enet-1.3.18/peer.c:812-826 | The command at a ready front is the next message with all its bytes. |
| `ReliableChannel.WindowTest` | thirdParty/enet-1.3.18/peer.c:863-879 | The window test lets through exactly the commands of messages that are neither delivered nor at hand in a later window; of the others only delivered ones are acknowledged. |
| `ReliableChannel.HandleKeeps` | thirdParty/enet-1.3.18/protocol.c:562-645 | Handling any arriving command, repeated or out of order, keeps the queue in order, loses nothing held, holds nothing new but the command, and acknowledges a command only if it is held or delivered. |
| `ReliableChannel.HandleDispatches` | thirdParty/enet-1.3.18/peer.c:807-844 | No deliverable command is left at the front. |
| `ReliableChannel.AllHeldIsReady` | thirdParty/enet-1.3.18/peer.c:812-820 | The next message stands ready at the front once all its commands are held. |
| `ReliableSender.MaskIsSpan` | thirdParty/enet-1.3.18/protocol.c:1457-1459 | The mask and the wrapped bits of the gate are exactly the ten windows from the new one on, modulo 16. |
| `ReliableSender.BlockedOnWords` | thirdParty/enet-1.3.18/protocol.c:1455-1459 | The gate as the source computes it, one counter and one mask on the 16-bit word of used windows, is the gate that the proofs of the protocol use. |
| `ReliableSender.Peer.Setup` | thirdParty/enet-1.3.18/peer.c:636-703 | A command gets the next number of its channel (or of the peer) and goes to the end of the right queue. |
| `ReliableSender.Peer.Send` | thirdParty/enet-1.3.18/peer.c:106-224 | A packet becomes one command or exactly its fragments with consecutive numbers, or is refused with the queues unchanged. |
| `ReliableSender.Peer.SendFront` | thirdParty/enet-1.3.18/protocol.c:1495-1519 | Sending moves the front command behind the sent ones and books it once in its window. |
| `ReliableSender.Peer.CheckOutgoing` | thirdParty/enet-1.3.18/protocol.c:1409-1519 | What is sent is a prefix of each of the two lists, merged by the time of queueing, with attempts, send time and timeout set; it ends exactly where the next command does not fit the datagram, both lists are empty, or the list with packets is held back by gate or transit limit and the other is empty. The wrap is reported if and only if the gate holds back the front command when its turn comes. All books stay right. |
| `ReliableSender.Peer.CheckTimeouts` | thirdParty/enet-1.3.18/protocol.c:1351-1407 | The peer is given up if and only if some expired command, counted from the earliest send time that has expired so far, has waited for the maximum, or has used up its attempts and waited for the minimum. All commands before it that have expired go back to the fronts of their queues in order with doubled timeouts, the rest stay; all books stay right. |
| `ReliableSender.EarliestIsLeast` | thirdParty/enet-1.3.18/protocol.c:1369-1371 | The earliest timeout becomes the least of what it was, if anything, and the send times of all expired commands. |
| `ReliableSender.SortedOut` | thirdParty/enet-1.3.18/protocol.c:1366-1397 | Each command stays if it was sent less than its timeout ago, and otherwise is queued again, with twice the timeout, behind those before it. |
| `ReliableSender.Peer.RemoveSent` | thirdParty/enet-1.3.18/protocol.c:220-292 | Exactly the acknowledged command leaves, whichever queue it is in, and its window is booked down; an unknown number changes nothing. |
| `ReliableProtocol.SendKeepsRecent` | thirdParty/enet-1.3.18/protocol.c:1455-1459 | The gate keeps every unacknowledged number within the newest seven windows. |
| `ReliableProtocol.AckIsExact` | thirdParty/enet-1.3.18/protocol.c:228-246 | An acknowledgement less than sixteen windows late can release no other command than the one it was made for. |
| `ReliableProtocol.SendStaysNear` | thirdParty/enet-1.3.18/protocol.c:1455-1459 | A number may be sent only if it is within seven windows of the receiver's last delivered one. |
| `ReliableProtocol.DeliveredInOrder` | thirdParty/enet-1.3.18/peer.c:807-844 | In every run with loss, repetition and reordering the delivered messages are a prefix of those sent, each once, in order, with all bytes. |
| `ReliableProtocol.AcknowledgedIsHeld` | thirdParty/enet-1.3.18/peer.c:605-634 | In every run an acknowledged command belongs to a delivered message or lies in the receiver's queue. |
| `ReliableProtocol.SenderStaysNear` | thirdParty/enet-1.3.18/protocol.c:1455-1459 | In every run the newest number sent is at most seven windows ahead of the receiver and the unacknowledged ones are in the newest seven windows. |
| `ReliableProtocol.AllAcknowledgedIsDelivered` | thirdParty/enet-1.3.18/peer.c:807-844 | In every run, once all is sent and nothing is unacknowledged, everything is delivered. |
| `ReliableDelivery.TooLongIs` | thirdParty/enet-1.3.18/peer.c:106-224 | Whether a message reaches over too many windows can be told before it is queued: the channel's last number modulo 4096 plus the number of fragments is 32768 or more. |
| `ReliableDelivery.NothingBeforeSent` | thirdParty/enet-1.3.18/protocol.c:562-645 | In every run nothing is delivered, and no fragment held, that was not sent. |
| `ReliableDelivery.NeverDelivered` | thirdParty/enet-1.3.18/peer.c:605-620 | In every run a message that reaches over too many windows is never delivered, nor any message after it. |
| `ReliableDelivery.Unblocked` | thirdParty/enet-1.3.18/protocol.c:1455-1459 | Once what may be acknowledged is, the gate holds back no number of the message to be delivered next, unless that message reaches over too many windows. |
| `ReliableDelivery.DeliverableIff` | thirdParty/enet-1.3.18/peer.c:106-224 | For any list of messages, some run delivers a given one if and only if neither it nor one before it reaches over too many windows. |
| `ReliableDelivery.FirstMessage` | thirdParty/enet-1.3.18/peer.c:106-224 | A message sent first on its channel can be delivered if and only if it has less than 32768 fragments. |
| `ReliableDelivery.EightWindowsNeverArrive` | thirdParty/enet-1.3.18/peer.c:125-141 | A first message of 32768 fragments, which the sender accepts, can never be delivered: here 32768 bytes in fragments of one. |
| `ReliableRefinement.StartRefines` | thirdParty/enet-1.3.18/host.c:229-243 | New books of a channel are the start of the protocol's sender. |
| `ReliableRefinement.QueueRefines` | thirdParty/enet-1.3.18/peer.c:150-185 | The commands that a sent packet becomes are the protocol's queueing of a message; those of other channels change nothing. |
| `ReliableRefinement.SendRefines` | thirdParty/enet-1.3.18/protocol.c:1455-1519 | Sending the front command for the first time is a protocol step that sends the next number; sending it again, or another channel's, is none. |
| `ReliableRefinement.AckRefines` | thirdParty/enet-1.3.18/protocol.c:220-292 | Taking out the command that an acknowledgement names is the protocol's acknowledgement of the true number, if less than sixteen windows late. |
| `ReliableRefinement.NothingToAck` | thirdParty/enet-1.3.18/protocol.c:220-292 | When no command is found the protocol's sender has none to acknowledge either. |
| `ReliableRefinement.TimeoutRefines` | thirdParty/enet-1.3.18/protocol.c:1351-1407 | Moving expired commands back changes nothing the protocol knows. |
| `LinkedList.Turn` | thirdParty/enet-1.3.18/list.c:20-41 | A ring may be read from any of its nodes on. |
| `LinkedList.Insert` | thirdParty/enet-1.3.18/list.c:20-32 | On heap nodes, insertion puts the node before the position and keeps the ring's links mutually inverse. |
| `LinkedList.Remove` | thirdParty/enet-1.3.18/list.c:34-41 | Removal takes out exactly the node. |
| `LinkedList.Move` | thirdParty/enet-1.3.18/list.c:43-59 | Moving a stretch from one ring to a position in another splices both rings, all links staying mutually inverse. |
| `LinkedList.Size` | thirdParty/enet-1.3.18/list.c:61-73 | The walk counts the nodes other than the sentinel. |
| `BandwidthThrottle.LevelFits` | thirdParty/enet-1.3.18/host.c:380-383 | At the start of a pass the common level fits the bandwidth, so no peer limited at it is promised more than is left. |
| `BandwidthThrottle.LevelIsLargest` | thirdParty/enet-1.3.18/host.c:380-383 | No larger level fits the bandwidth, but for SCALE itself. |
| `BandwidthThrottle.LimitFits` | thirdParty/enet-1.3.18/host.c:400-417 | Taking one limited peer's bandwidth out underflows neither the bandwidth nor the data total and leaves enough for the others. |
| `BandwidthThrottle.CapKeeps` | thirdParty/enet-1.3.18/host.c:400-404 | The limit, which is never less than 1, keeps a peer within its bandwidth if and only if it has less than 32·(bandwidth + 1) waiting. |
| `BandwidthThrottle.CapExceeds` | thirdParty/enet-1.3.18/host.c:400-404 | With 1000 bytes waiting, a peer that can take 1 is let through 31. |
| `BandwidthThrottle.CapIsLargest` | thirdParty/enet-1.3.18/host.c:400-404 | The limit of one peer is the largest that fits its bandwidth, but for the least one, 1. |
| `BandwidthThrottle.ProductsFit` | thirdParty/enet-1.3.18/host.c:396-401 | No product that a round forms overflows 32 bits, under one bound checked before the round. |
| `BandwidthThrottle.SharesFit` | thirdParty/enet-1.3.18/host.c:400-436 | If no limit set is above a level, what the limits of all peers let through of their data is at most what that level lets through of all data. |
| `BandwidthThrottle.SetAsideFits` | thirdParty/enet-1.3.18/host.c:400-444 | What the passes set aside for the limited peers, their own bandwidths, and what the others are let through add up within what the passes account for. |
| `BandwidthThrottle.LevelFalls` | thirdParty/enet-1.3.18/host.c:416-418 | Taking a limited peer's bandwidth out of bandwidth and data total never raises the level. |
| `BandwidthThrottle.CapAtMost` | thirdParty/enet-1.3.18/host.c:397-404 | The limit set for a peer is at most the level it exceeded. |
| `BandwidthThrottle.RoundedBounds` | thirdParty/enet-1.3.18/host.c:400-443 | After a round packetThrottle is the lesser of what it was and the limit, the limit is at most SCALE and for a peer without one of its own the final level, and the data counters are 0. |
| `BandwidthThrottle.ThrottleOutgoing` | thirdParty/enet-1.3.18/host.c:338-444 | There are at most two passes. A peer is limited if and only if it exceeds its own bandwidth at the level of the first; no limit set is above that level. What the limits that are set let through of the waiting data stays within the budget, and so does what the passes set aside. While a peer is without a limit of its own the final level is the largest that fits what the others' bandwidths leave; if no peer is limited and all the data fits, each gets SCALE. |
| `BandwidthThrottle.LimitedAtFirstLevelOnly` | thirdParty/enet-1.3.18/host.c:376-426 | A peer that can take 480 of its 1000 bytes is limited at the first level, 16, though at the final one, 10, it would not exceed its bandwidth. |
| `BandwidthThrottle.NextLimit` | thirdParty/enet-1.3.18/host.c:460-460 | The incoming limit never falls from pass to pass and leaves less than one unit a peer. |
| `BandwidthThrottle.GrantsAdd` | thirdParty/enet-1.3.18/host.c:446-475 | What the peers are granted is the satisfied ones' bandwidth and the limit for each other. |
| `BandwidthThrottle.BoundedIff` | thirdParty/enet-1.3.18/host.c:470-496 | Every peer is told a bound, and not 0, which means none, if and only if each has said how much it sends and there is a unit for each. |
| `BandwidthThrottle.UndeclaredIsUnbounded` | thirdParty/enet-1.3.18/host.c:470-496 | A peer that has not said how much it sends is told 0, however little is left. |
| `BandwidthThrottle.CommonLimit` | thirdParty/enet-1.3.18/host.c:457-480 | The loop ends with the satisfied peers below the limit, the others at or above it, and the limit the largest that fits. |
| `BandwidthThrottle.LimitIncoming` | thirdParty/enet-1.3.18/host.c:446-501 | Each connected peer is told the lesser of its own bandwidth and the common limit, or 0, no limit, if it has not said its own. What is told adds up within the bandwidth with less than one unit a waiting peer to spare, and it bounds all that arrives if and only if every peer has said its own and there is a unit for each. |
| `ClientRegistry.JoinKeepsInverse` | core/ServerNetInterface.cpp:292-315 | A join keeps the peer map and the ID map mutually inverse if and only if the peer has not joined under another ID. |
| `ClientRegistry.SecondIdBreaks` | core/ServerNetInterface.cpp:292-315 | A peer that joins as 7 and then as 8 leaves client 7 on the map by IDs. |
| `ClientRegistry.OnMapIffAdded` | core/Server.cpp:198-220 | A client is on the server's map exactly while its last item is not a removal. |
| `ClientRegistry.AddedOnce` | core/ServerNetInterface.cpp:307-314 | No client is added twice. |
| `ClientRegistry.UsedWhileAdded` | core/ServerNetInterface.cpp:292-359 | Every data item and removal of a client comes after its addition, and nothing of it comes after its removal. |
| `ClientRegistry.Tracker.Join` | core/ServerNetInterface.cpp:292-315 | A join replaces a client with the same ID by a removal and an addition on the queue, whoever else has joined; the two maps stay inverse if and only if the peer has not joined under another ID. |
| `ClientRegistry.Tracker.Receive` | core/ServerNetInterface.cpp:324-338 | Data of a joined peer is queued for its client; other data is dropped. |
| `ClientRegistry.Tracker.Disconnect` | core/ServerNetInterface.cpp:343-360 | A disconnect removes the peer from both maps and queues the removal, if it had joined. |
| `ClientRegistry.Tracker.Update` | core/ServerNetInterface.cpp:372-407 | At every step applying the queue to the server's map gives the network thread's map, and a client whose data or removal is taken is on the server's map. |
| `ChunkedReplies.ParseSerialize` | core/ClientNetInterface.cpp:1003-1008 | What the host serialized is read back. |
| `ChunkedReplies.SendMultipart` | core/ClientNetInterface.cpp:1094-1137 | The loop cuts the reply into chunks that tile it. |
| `ChunkedReplies.ChunksAre` | core/ClientNetInterface.cpp:1094-1137 | Chunk k is the k-th mebibyte of the reply, the last one what is left of it, and names request, callback and total. |
| `ChunkedReplies.ReceivedAll` | core/ClientNetInterface.cpp:997-999 | The byte count reaches the total exactly when no chunk is missing. |
| `ChunkedReplies.ChunkArrives` | core/ClientNetInterface.cpp:981-1027 | A new chunk, in any order of arrival, is stored; the last one, whichever it is, makes the callback once with what the host serialized and forgets the download. |
| `ChunkedReplies.ClientNet.Receive` | core/ClientNetInterface.cpp:981-1028 | The method does what the specification of receiving a chunk says. |
| `RelayProtocol.ArriveFits` | core/ClientNetInterface.cpp:994-995 | A chunk of a reply that satisfies the invariant lies inside the buffer of the client it arrives at. |
| `RelayProtocol.ChunksFit` | core/ClientNetInterface.cpp:994-995 | In every run a chunk on its way to a client lies inside the client's buffer when it arrives. |
| `RelayProtocol.NextInv` | core/Server.cpp:222-258 | Every step of clients, tracker and hosts keeps the joint invariant on requests, replies and chunks; what becomes of the callbacks is in RelayAnswers. |
| `RelayProtocol.RepliesReachTheirClient` | core/Server.cpp:222-258 | In every run the tracker sends a reply's chunks only to the client that made the request, and clients hold only downloads of replies to their own requests. |
| `RelayProtocol.AnsweredOnceAndGenuinely` | core/ClientNetInterface.cpp:1005-1024 | In every run each callback is made at most once, and one made with a payload gets exactly what a host answered to the request made with it. |
| `RelayProtocol.AnsweredAtLastChunk` | core/ClientNetInterface.cpp:999-1028 | In every run the callback is made exactly when the last chunk has arrived; before that it is pending as long as the client is connected. |
| `RelayAnswers.CallbacksConserved` | core/ClientNetInterface.cpp:931-942 | In every run each callback that was handed out is either pending or was made, never both and never neither. |
| `RelayAnswers.PendingIsOnItsWay` | core/Server.cpp:451-469 | In every run the request of a pending callback of a connected client is with the tracker, refused and not yet reported, at a host, or answered with a chunk still to arrive. |
| `RelayAnswers.NothingPendingAfterwards` | core/ClientNetInterface.cpp:192-208 | After a disconnect nothing is pending and every callback was made. |
| `RelayAnswers.FlushAnswersAll` | core/ClientNetInterface.cpp:192-208 | disconnect makes every pending callback, in whatever order, and none is left. |
| `RelayAnswers.AnswerArrives` | core/Server.cpp:222-258 | Any run in which the tracker has a connected client's request extends to one in which that client's callback was made with the host's answer. |
| `RelayAnswers.RefusalArrives` | core/Server.cpp:451-469 | It also extends to one in which the tracker refuses the request and the callback was made with the error. |
| `DumpLoad.UnhexHex` | thirdParty/liblmdb/mdb_load.c:163-175 | The two hex digits of a byte are read back as the byte. |
| `DumpLoad.HexValueIs` | thirdParty/liblmdb/mdb_load.c:163-175 | A hex digit's value, in either case. |
| `DumpLoad.PrintedAs` | thirdParty/liblmdb/mdb_dump.c:62-94 | What two lines look like: a backslash is doubled, a newline is a backslash and two hex digits; in the other format every byte is two hex digits. |
| `DumpLoad.UnlineUndoes` | thirdParty/liblmdb/mdb_dump.c:62-94 | Parsing what text or byte printed gives the bytes back, for every byte string. |
| `DumpLoad.NoNewline` | thirdParty/liblmdb/mdb_dump.c:62-94 | A printed line has no newline of its own and no NUL. |
| `DumpLoad.LineUndoes` | thirdParty/liblmdb/mdb_load.c:177-277 | Reading one printed line gives back the bytes and stops at what follows. |
| `DumpLoad.LoadUndoesDump` | thirdParty/liblmdb/mdb_dump.c:138-151 | Loading a dump puts exactly the dumped records, in order, in both formats, whatever follows it. |
| `DumpLoad.LoadUndoesPlain` | thirdParty/liblmdb/mdb_load.c:177-277 | Without a header, lines of bare text are loaded as exactly their records, to the end of the input. |
| `DumpLoad.StopsAt` | thirdParty/liblmdb/mdb_load.c:402-452 | Loading stops at the first line that is no record: what came before is committed if it stands for a key, and aborted if it stands for a value. |
| `DumpLoad.Output.Dump` | thirdParty/liblmdb/mdb_dump.c:138-151 | The loop prints exactly the specified lines. |
| `DumpLoad.Loader.FillLine` | thirdParty/liblmdb/mdb_load.c:202-231 | The doubling loop reads exactly the line, of any length, and never writes outside the buffer; the source reads before the buffer if and only if the first byte of the line is a NUL. |
| `DumpLoad.Loader.DecodeText` | thirdParty/liblmdb/mdb_load.c:237-255 | Decoding in place gives what the line stands for, or fails exactly when it is malformed; the write pointer never passes the read pointer. |
| `DumpLoad.Loader.DecodeBytes` | thirdParty/liblmdb/mdb_load.c:256-272 | The same for the bytevalue format, odd lengths being malformed. |
| `DumpLoad.Loader.ReadLine` | thirdParty/liblmdb/mdb_load.c:177-277 | readline returns what the next line stands for, with all its error cases, if the line has no NUL; a read outside the buffer happens if and only if the line starts with one. |
| `DumpLoad.Loader.Load` | thirdParty/liblmdb/mdb_load.c:402-452 | main's loop puts exactly the records of the specification and tells commit from abort, for input without NUL bytes; for other input it stays inside its buffers or stops at a line that starts with a NUL. |

## Left out

- StrayDecoder.Decompress: what is written for a stream that no encoder made is not stated, from the code word on that leaves its context's slots, only that decoding it is safe and ends.
- RangeCoderModule.RangeCoder.DecodeIn: a quotient outside the total ends it; from there on the same code is `StrayDecoder`, with the quotient cut to 16 bits as in the source. One loop of the source is two here.
- ENET_CONTEXT_EXCLUSION, which the source disables, and the coder's allocation.
- SnapshotProtocol.SnapshotIsolation: the copy of a meta page and its write are single steps; pages are handed out one at a time, a run of overflow pages being several steps; reader slots are found by their owner.
- Nested transactions, page spilling, WRITEMAP, DUPSORT, LEAF2 pages, dead readers and lock files.
- FreelistSave.Commit.Save: what each freeDB call does to pages is an input, and the method gives up when that input ends; that it ends is proved when those calls move no page; ID lists are sets there, their order and merging being in `IdListOps`; overwriting a record of the right length in the last loop allocates nothing.
- BTreeUpdate.InsertOk: the split policy is arbitrary but for what `PageSplit` proves of the source's, outside MDB_APPEND; that needs node sizes of at most half a page on leaves and a third on branches, which me_nodemax and the limit on keys give.
- BTreeUpdate.GrowBranchOk: the same.
- TreePages.InsertFits: pages are assumed to have the room that `TreeRoom.SizedIsRoomy` proves of pages of bytes: branch nodes take at most a quarter of a page, and no node is more than sixteen times as large as one below a 256th of the page.
- TreePages.DeleteFits: the same.
- The B+tree is a value and its descent is recursion, so touching pages, page numbers, other cursors' adjustment and MDB_APPEND are not captured. Keys are integers, the order of mdb_cmp.
- PageLayout.Page.UpdateKey: the delete and split that follow a key that does not fit are the B+tree's.
- mdb_midl_need, append, append_list and append_range, which only grow an array.
- ReliableProtocol.DeliveredInOrder: a repeated command of a delivered message is assumed to be at most nine windows late, counted from the message's first number, and an acknowledgement less than sixteen; later ones cannot be told from new ones. Both peers stay connected.
- ReliableDelivery.DeliverableIff: that a message is delivered in every run in which what is lost is sent again often enough is not stated, only that no run delivers the too long ones and some run delivers the others.
- ReliableSender.Peer.CheckTimeouts: times are natural numbers that do not wrap; round-trip estimates are inputs.
- Unreliable and unsequenced commands, the connection handshake, checksums and pings. Fragment bitmaps are sequences of booleans, not words of 32 bits.
- LinkedList.Move: the queues of sender and receiver are sequences; that their list operations are right on heap nodes is proved in `LinkedList` alone.
- BandwidthThrottle.ThrottleOutgoing: the products of a round are assumed not to overflow, by one test on the inputs; a round that is not due is left out.
- ClientRegistry.Tracker.Join: a join with an invalid ID, which is rejected.
- RelayProtocol.AnsweredAtLastChunk: each chunk is delivered at most once, request IDs are fresh, there is one reply per request, and callback IDs do not wrap; progress callbacks, rejoining after a disconnect and encryption are left out, and serialization is an injective function.
- DumpLoad.Loader.Load: header lines, the commit after each 100 records and the database's own errors; keys and values are read through one line buffer, the key being copied out first, where the source has two; for input with a NUL inside only safety is stated, and where a line starts with one the model stops.
- DumpLoad.Loader.ReadLine: what a line with a NUL inside is read as is not stated.
- DumpLoad.Loader.FillLine: the same.
- Operating-system calls: sockets, mapped files, locks, clocks; memory exhaustion.
- The HTTP client, the controllers and the Tui interpreter.
