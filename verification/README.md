# A verified model of the rsync daemon protocol, both ends

The repository implements the client and the server of the rsync daemon protocol.
This project models the parts in which the two ends must agree, and proves that they do:

- **Delta engine** (`RollingSum`, `Windows`, `WeakTest`, `HashSearch`, `Delta`): the server
  slides a window over a file, finds blocks of the client's copy by a rolling checksum and a
  chained hash table, and sends tokens. For every file and block table it sends the tokens of
  a plain search that scans all blocks at every offset, and these rebuild the file.
- **File-list codec** (`Xflags`, `Flist`, `FlistProofs`, `FlistLists`, `FlistExact`,
  `FlistObjects`): entries are coded against the previous entry, in layouts that depend on
  the version. Reader and writer stay in step over whole lists; which entries come back,
  and what of them, is stated exactly.
- **Order and index** (`Paths`, `FlistOrder`, `StableSort`, `FlistSort`, `FlistTree`,
  `Directories`): the comparison is a total order with a simple meaning, so the client's
  index for a name is the server's.
- **Session** (`Sessions` in `Session.dfy`): client and server as two programs over two
  channels with mux buffers. Every run ends, with nothing left over; it ends with both sides
  finished unless the server refuses the request, which leaves the client waiting.
- **Transfer** (`Selectors`, `SumHeads`, `Transfer`, `Conversation`): requests, answers and
  the whole session in bytes, composed with the file list and the order: opening a regular
  file returns its bytes, and every byte written is consumed. Which names cannot be opened is
  stated exactly.
- **Wire formats and transports** (`WireInts`, `Ndx`, `Mux`, `Pipe`, `Greetings`): integers,
  compressed indices, frames, the bounded pipe, the greeting and the algorithm choice.

Code that works step by step is a method or a class, proved against a function on values
(`Put…` for what is written, `Get…` for what is read); the laws are lemmas about those
functions. A byte stream is a `Stream` holding the bytes not yet read. `Read` tells io.EOF,
io.ErrUnexpectedEOF, a reported error and an index out of range apart.

The proofs turned up behaviour that differs from what one would expect. Each is kept as it
is in the code and has its exact condition:

- the weak-checksum test compares with `s1|s2`, unmasked and unshifted, so equal blocks are
  recognised only under a condition on the data since the last start of the sums
  (`VisitHitsExactly`, `EqualBlockPassesExactly`, `ZerosMissed`); rebuilding does not depend on it;
- a negative remainder in a sum head is accepted and makes the search index past the data
  (`HashSearch`, `AcceptedSumsSearchable`, `NegativeRemainderPanics`);
- a reply is refused if the head it echoes announces digests shorter than the file checksum
  (`AnswerRebuilds`);
- the varint reader leaves its buffer for first bytes from 0xF8, the varlong reader when
  minimum and extra bytes exceed nine (`VarintPanicsExactly`, `VarlongPanicsExactly`);
- the least 32-bit integer does not survive the index code (`NdxRoundTrip`);
- a repeated device number at protocols 28 and 29, and times and device numbers that do not
  fit, are lost (`LossExactly`, `RepeatedDeviceLost`); below 28 an entry with a repeated
  access time, or a directory without flags and with a name of 128 bytes or more, does not
  come back (`EntryExactly`, `PlaceholderExactly`);
- from protocol 30 on the server refuses, and before that serves as empty, entries that its
  list calls regular although they are not (`OpenDelivers`, `ServerRefuses`, `SessionCompletes`);
- the loop over the file list takes the end of the stream within an entry for the end of the
  list; only the id lists that follow keep a cut list from being accepted (`CutListRefused`);
- the version step-down wraps around at the least 64-bit integer (`VersionFair`, `VersionWraps`).

The varint length table in protocol.md:1203-1211 differs from protocol/wireint.go:11-16; the
model follows the code.

## Model

| member | source | states |
|---|---|---|
| `HashSearch.SearchRebuilds` | server-send.go:633-739 | For every non-empty file, block table and basis without strong-hash collisions the tokens of the plain search rebuild the file, and every block index fits the wire |
| `HashSearch.HashSearch` | server-send.go:633-739 | For every file and block table the search ends and writes exactly the tokens of the plain search, which scans all blocks at every offset; it indexes out of range if and only if the last block's length is negative |
| `HashSearch.Advance` | server-send.go:657-734 | One turn of the loop goes to the place, and writes the tokens, of one visit of the plain search, and keeps the rolled sums and the window length right; it can fail only at the end of the data |
| `HashSearch.SearchLoop` | server-send.go:657-734 | What is written, with the literal still due, is what the plain search sends; the loop fails if and only if the last block's length is negative |
| `HashSearch.TurnIsVisit` | server-send.go:659-705 | A turn that finds the highest block passing the tests is a visit of the plain search |
| `Windows.ShiftRolls` | server-send.go:711-721 | The one-byte shift in wrapping arithmetic turns the sums of a window into those of the next, modulo 2^16 |
| `Windows.ShiftExact` | server-send.go:711-721 | Sums that are off by c1 and c2 modulo 2^32 are, one shift later, off by c1, and by c2 and, as long as a byte comes in, c1 |
| `Windows.CarriedSums` | server-send.go:684-721 | The sums n shifts behind a start, modulo 2^32, in closed form: what the start cut off the first sum stays off it, and adds up in the second with every byte taken in |
| `HashSearch.SpotsFromStart` | server-send.go:657-734 | After any number of visits the sums are those carried by shifts from the last start, which is the beginning of the data before any match and else one byte before the end of the last match |
| `HashSearch.VisitHitsExactly` | server-send.go:657-734 | At every visit of a search, a block equal to the window, with its checksums right, is matched if and only if the weak test recognises the window at its distance from the last start |
| `HashSearch.FindMatch` | server-send.go:657-674 | The chain walk returns the highest block that passes all tests, which is what a scan over all blocks would return, or -1 exactly if none passes |
| `HashSearch.WalkIsBucket` | server-send.go:636-647 | The walk from a table entry visits, in strictly decreasing order, all and only the blocks whose checksum folds to that entry |
| `HashSearch.BuildIndex` | server-send.go:636-647 | The loop fills table and chain so that each entry is the last earlier block of its bucket |
| `HashSearch.EqualBlockInBucket` | server-send.go:659 | A block with the window's checksum is in the bucket that the unmasked sums select |
| `WeakTest.EqualBlockPassesExactly` | server-send.go:661-663 | At every spot, n bytes behind the last start, a block equal to the window passes the weak test if and only if two conditions on the sums of the two windows hold, which can be computed from the data |
| `WeakTest.EqualBlockPasses` | server-send.go:661-663 | For any carried sums, an equal block passes if and only if the low halves or to the first sum and the high halves to the second |
| `WeakTest.MaskedBlockPasses` | server-send.go:661-663 | With masked sums, as at the beginning, if and only if the second sum is 0 modulo 2^16 |
| `WeakTest.ZerosMissed` | server-send.go:661-663 | A window of zeros equal to its block is missed behind any start whose first sum exceeded 16 bits |
| `HashSearch.EqualBlockHitsExactly` | server-send.go:659-674 | A block equal to the window, with its checksums right, is matched if and only if the weak test recognises it |
| `HashSearch.EqualBlockMissed` | server-send.go:661-663 | A one-byte file equal to its only block is not matched |
| `Windows.Roll` | server-send.go:711-721 | The in-place roll gives the shifted sums, and its window length stays right at full width and while the window shrinks at the end |
| `Windows.Restart` | server-send.go:684-705 | After a match, summing the window one byte early and rolling once gives the sums of the window at the next offset |
| `HashSearch.StepBy` | server-send.go:676-730 | A step over a match, or by one byte with perhaps an early flush, writes the tokens and reaches the place of a hop, and keeps the rolled sums right |
| `HashSearch.HopTiles` | server-send.go:676-730 | A hop, early flush included, sends tokens that rebuild exactly the data it leaves behind |
| `HashSearch.TourTiles` | server-send.go:657-738 | From any place on, the tokens still to come rebuild exactly the data not yet sent |
| `HashSearch.SendLiteralFill` | server-send.go:744-749 | Writes the bytes between two offsets as one literal, or nothing |
| `HashSearch.HitFits` | server-send.go:661-674 | A block that passes the tests is not empty and its window lies within the data |
| `RollingSum.RollingChecksum` | server-send.go:753-766 | The 4-way unrolled loop in uint32 equals the byte-wise definition of both sums modulo 2^16 |
| `RollingSum.Checksum1` | protocol/checksum.go:17-33 | The packed checksum is the byte-wise first sum in the low and the second in the high half |
| `RollingSum.UnrolledSums` | protocol/checksum.go:17-33 | After the unrolled and the byte loop both sums are the byte-wise ones modulo 2^32 |
| `RollingSum.DropSums` | server-send.go:712-714 | Dropping the first byte takes it from the first sum and its product with the window length from the second |
| `Delta.ParseOfStream` | protocol/delta.go:104-189 | Any tokens a peer sends, literals of any length included, are parsed to the same tokens cut into pieces of at most 32768 bytes, stopping right behind the end marker |
| `Delta.ParseDrains` | protocol/delta.go:105-120 | A residue is returned piece by piece, in order and completely, before the next token |
| `Delta.ParseMatch` | protocol/delta.go:133-136 | Every block index from 0 to 2^31-1 survives, including the one whose negation is the least int32 |
| `Delta.StreamRoundTrip` | protocol/delta.go:168-207 | Parsing what WriteDeltaStream wrote means the same as the tokens against every basis |
| `Delta.CutMeans` | protocol/delta.go:35-52 | Cutting literals does not change what tokens rebuild |
| `Delta.WrittenIsCut` | protocol/delta.go:193-207 | Writing token by token puts the same bytes on the wire as the tokens cut into pieces |
| `Delta.DeltaWriter.WriteLiteral` | protocol/delta.go:35-52 | The loop writes the literal in pieces of at most 32768 bytes, each with its length, and nothing for the empty literal |
| `Delta.DeltaWriter.WriteMatch` | protocol/delta.go:58-63 | Writes minus the index minus one |
| `Delta.DeltaReader.ReadToken` | protocol/delta.go:104-156 | Returns the next token, reference or end with the residue left, or the failure |
| `Delta.ParseDeltaStream` | protocol/delta.go:168-189 | The loop returns the parse of the stream and leaves the stream behind the end marker |
| `Delta.WriteDeltaStream` | protocol/delta.go:193-207 | The loop writes the cut tokens and the end marker |
| `SumHeads.SumHeadRoundTrip` | protocol/checksum.go:131-205 | A written head comes back, less the strong length below protocol 27, if it passes the guards, and is refused if not |
| `SumHeads.AcceptedSumsSearchable` | protocol/checksum.go:164-205 | Whatever the peer sends, accepted sums fit the search, and keep it in bounds if and only if the remainder is not negative |
| `SumHeads.NegativeRemainderAccepted` | protocol/checksum.go:164-205 | A head with remainder -1 passes the guards of every version |
| `SumHeads.ReceiveSums` | server-send.go:557-591 | Reads head and blocks, giving the last block the remainder's length when that is not zero |
| `Xflags.FlagsRoundTrip` | protocol/flist.go:952-984 | The reader sees the flags with the writer's placeholder bit, in all three layouts, and never the end of the list |
| `Xflags.HighFlagsLost` | protocol/flist.go:974-983 | Below protocol 28 flags with a high bit do not come back, and with high bits only they read as the end of the list |
| `FlistExact.EntryExactly` | protocol/flist.go:114-486 | For every entry, in step: it comes back as the version carries it, with the stream right behind it, if and only if it passes the reader's guards and, below protocol 28, neither repeats the last access time nor is a directory without flags and with 128 or more name bytes |
| `FlistProofs.EntryRoundTrip` | protocol/flist.go:114-486 | Reading one such entry, in step, returns exactly what the version carries of it and what follows |
| `FlistProofs.StaysInStep` | protocol/flist.go:582-823 | After one entry written and read both ends remember the same name, mode, times and owners |
| `FlistLists.ListRoundTrip` | protocol/flist.go:114-486 | Reading a written list returns what each entry carries, in order, never mistakes an entry for the end, and stops behind the end marker |
| `FlistLists.TrailerRoundTrip` | client-open.go:256-325 | The client reads past both id lists and the error trailer exactly |
| `FlistLists.CutListRefused` | client-open.go:224-325 | Whatever the bytes, a list without its end marker is refused |
| `FlistLists.UnmarkedDrains` | client-open.go:232-242 | The loop accepts every list with its end marker, and one without it only by using up the stream |
| `FlistLists.FileListRoundTrip` | client-open.go:224-269 | From fresh ends the client gets what all entries carry and is left at the selector phase |
| `FlistLists.LossExactly` | protocol/flist.go:636-647 | Of an entry that comes back, modification times are right if and only if the version is at least 30 or they fit 32 bits, packed device numbers if and only if they fit, flagged devices if and only if they do not repeat, and device and inode numbers below 26 if and only if both fit 32 bits |
| `FlistLists.RepeatedDeviceLost` | protocol/flist.go:460-471 | At 28 and 29 a link on the same device as the last one arrives with device 0 |
| `FlistExact.PlaceholderExactly` | protocol/flist.go:974-983 | Every name announced by the placeholder bit comes back, with the stream right behind it, if and only if it is shorter than 128 bytes |
| `FlistExact.PlainDirLost` | protocol/flist.go:974-983 | A directory without flags below 28, with a longer name, does not come back, whatever follows |
| `FlistExact.RepeatedAtimeLost` | protocol/flist.go:974-983 | Nor does an entry below 28 whose access time repeats the last one |
| `FlistExact.OwnerAhead` | protocol/flist.go:974-983 | For it the reader takes an access time of four to nine bytes that was never written |
| `FlistExact.EntryGuard` | protocol/flist.go:114-486 | Whatever the bytes, an entry returned in full has passed the name, mode, link and checksum guards |
| `FlistObjects.CommonPrefixLen` | protocol/flist.go:993-1007 | The loop finds the longest common prefix of at most 255 bytes |
| `FlistObjects.FlistWriter.WriteEntry` | protocol/flist.go:582-823 | Appends the entry's encoding against the last one and remembers the entry |
| `FlistObjects.FlistReader.ReadEntry` | protocol/flist.go:114-486 | Returns the next entry or the end, consumes its bytes and remembers it, or fails as specified |
| `FlistObjects.SendFileList` | server-send.go:345-383 | Writes the list, end marker, id lists and error trailer that `FileListRoundTrip` is about |
| `FlistObjects.ReadEntries` | client-open.go:232-242 | The loop returns the entries up to the end marker or the end of the stream |
| `FlistObjects.EntryTail` | protocol/flist.go:582-823 | Encoding an entry does not depend on what is written after it |
| `FlistOrder.OldOrderIsByteOrder` | server-send.go:273-298 | Below protocol 29, for all strings, comparing components with implied slashes is comparing the names byte by byte |
| `FlistOrder.NewOrderIsKeyOrder` | server-send.go:300-329 | From 29 on it is the lexicographic order of the paths as steps, files before directories, except that "." compares less than itself |
| `FlistSort.OrderTotal` | server-send.go:273-329 | On distinct valid paths the comparison is never zero and reverses with its arguments |
| `FlistSort.OrderTransitive` | server-send.go:273-329 | It is transitive |
| `FlistSort.SortSorts` | server-send.go:333-340 | Sorting valid distinct paths gives a strictly sorted permutation |
| `FlistSort.SortedUnique` | server-send.go:333-340 | Two sorted lists of the same entries are equal |
| `FlistSort.ArrivalOrderIrrelevant` | client-open.go:878-883 | Any two arrival orders sort to one list, which is also what any other sort by the comparison gives |
| `FlistTree.ClientIndexIsServerIndex` | client-open.go:884-889 | Whatever the arrival order, the client's index for a name is its position in the server's list |
| `FlistTree.SortFlistEntries` | client-open.go:878-889 | The loop records every name's last position in the sorted list |
| `FlistTree.StartsWithTop` | server-send.go:303-309 | From 29 on the sorted list starts with "." |
| `FlistTree.SubtreeContiguous` | server-send.go:300-326 | From 29 on everything inside a directory follows it with nothing else between |
| `FlistTree.FilesFirst` | server-send.go:310-326 | From 29 on, at each level, files precede directories and all they contain |
| `FlistTree.UnderIsPrefix` | server-send.go:300-326 | A path is inside a directory by name if and only if its steps extend the directory's |
| `Directories.ChildOfParentOnly` | client-open.go:893-914 | An entry passes the filter of exactly one directory name, its parent's |
| `Directories.ListedExactlyOnce` | client-open.go:893-919 | Over a tree every entry but the top is listed in exactly one listed directory |
| `Directories.SiblingsDiffer` | client-open.go:915-927 | Two children of one directory have different base names |
| `Directories.FilterFlistChildren` | client-open.go:893-919 | The loop returns all and only the children, as often as listed, in base-name order |
| `Directories.ModuleDirFile.ReadDir` | client-open.go:568-584 | Returns the next page or the end, and moves the offset behind it |
| `Directories.PagesDeliverAll` | client-open.go:568-584 | Any page sizes deliver the children without gap or repeat, all of them after a request without limit or an end of directory |
| `Sessions.SessionCompletes` | server-send.go:389-462 | Every run is finite; one that cannot go on has every message consumed, all buffers and channels empty, and both sides finished, if and only if the server serves the request |
| `Sessions.NoMutualWait` | server-send.go:144-154 | No reachable state has both sides blocked on a read |
| `Sessions.NoFailure` | client-open.go:397-498 | Over every run no side reads a message it does not expect |
| `Sessions.NoWriteAfterClose` | client-open.go:204-219 | Once the client has closed, its output is flushed and the server has nothing left to write |
| `Sessions.StepAt` | server-send.go:67-137 | Every step keeps what is in flight equal to what the side ahead has said, and leaves less to do |
| `Sessions.RunsAt` | server-send.go:67-137 | So does every run, whose length is bounded by what there was to do |
| `Sessions.StuckAtEnd` | server-send.go:144-154 | A state without a next step is the end of the dialogue |
| `Sessions.ClientFollows` | client-open.go:331-498 | The client's program writes and reads the lines of one dialogue in order, for every version |
| `Sessions.ServerFollows` | server-send.go:389-462 | The server's program, driven by what it reads, follows the same dialogue |
| `Conversation.OpenDelivers` | client-open.go:117-178 | Opening any name: the client asks for data unless the entry found is a directory or a symlink or there is none; the session ends with every byte consumed on either side, and with the contents of the regular file of that name, or nothing of another entry, as the data asked for, if and only if nothing is asked for, the version is below 30 or the name is a regular file |
| `Conversation.OpenReturnsContents` | client-open.go:117-178 | Opening a regular file asks for its data and returns its contents |
| `Conversation.ServerUnderstands` | server-send.go:67-137 | For any requests, of which it refuses none, the server reads everything the client writes, filter list, requests, phases and goodbye, and stops where the client stops |
| `Conversation.ServerRefuses` | server-send.go:522-539 | With a request for anything but a regular file from 30 on, among any others, the server's run fails |
| `Conversation.ClientUnderstands` | client-open.go:224-498 | From everything the server writes, having refused no request, the client gets the list as carried and the contents of every requested file, nothing of what is not regular, in order, and consumes every byte |
| `Conversation.RequestsServed` | server-send.go:389-462 | Any sequence of requests, none of them refused, is answered in order, each with the contents or, for what is not regular, with nothing, the trackers moving along; every phase is echoed, and the last NDX_DONE ends the loop |
| `Conversation.RequestsRefused` | server-send.go:522-539 | One refused request, wherever it comes, makes the selector phase fail, whatever follows |
| `Conversation.RepliesRead` | client-open.go:346-392 | The client reads the replies to any requests not refused as the contents, in order, its tracker following the server's |
| `Conversation.DonesServed` | server-send.go:405-414 | From any phase on, the remaining NDX_DONE are echoed one by one, and the last one ends the loop |
| `Conversation.DonesRead` | client-open.go:434-453 | The client reads the echoed NDX_DONE, in every version, without moving its tracker |
| `Conversation.SendFiles` | server-send.go:389-462 | The selector loop, with its trackers and phase, writes and consumes what its function of the input bytes says, or fails as it does |
| `Conversation.ReactTo` | server-send.go:405-454 | Every branch for one selector: phases, delete statistics, keep-alive, metadata echo, transfer and errors |
| `Conversation.GoodbyeServed` | server-send.go:799-835 | The server reads the one or two goodbyes, with fresh trackers, and echoes the first from 31 on |
| `Conversation.SecondGoodbyeSpared` | server-send.go:817-829 | A stream that ends after the first goodbye is accepted, with the same echo |
| `Conversation.StatsRead` | client-open.go:458-475 | The client reads past exactly the statistics written |
| `Transfer.AnswerRebuilds` | server-send.go:512-627 | Whatever sums a client sends of its blocks, if hashes do not collide a receiver with those blocks rebuilds the file from the answer, if and only if the digests have the file checksum's length |
| `Transfer.ReplyUnderstood` | client-open.go:346-392 | A receiver reads a reply whose tokens rebuild the data as that data, whatever follows, if and only if the head announces the checksum's length |
| `Transfer.NegativeRemainderPanics` | server-send.go:654-712 | A request with remainder -1 for any non-empty file makes the server index past it |
| `Transfer.NullHeadAnswered` | server-send.go:512-627 | A request without blocks is answered with the contents of a regular file as one literal; for any other entry, with the empty literal below 30 and a refusal from 30 on |
| `Transfer.TokensRebuild` | server-send.go:602-612 | With blocks by the search, else as one literal, the tokens rebuild the file |
| `Transfer.AnswerUnderstood` | client-open.go:346-392 | The client reads such an answer as the contents, its checksum comparison succeeding |
| `Transfer.BodyRoundTrip` | client-open.go:364-389 | A receiver with the same blocks gets the file from any tokens that rebuild it, whatever follows, if and only if it expects the checksum's length |
| `Transfer.MatchSums` | server-send.go:602-627 | Writes the tokens, the end marker and the checksum, or fails exactly where the search does |
| `Transfer.SendFile` | server-send.go:512-552 | Reads the sums, writes the answer and moves the tracker; fails exactly on unreadable sums, on a non-regular file from 30 on and on a negative remainder |
| `Transfer.WriteRequest` | client-open.go:331-344 | Writes the selector and the null sum head, and moves the tracker |
| `Transfer.ReadAnswer` | client-open.go:346-392 | Returns what the answer's bytes mean and leaves the stream behind them |
| `Transfer.ReadTokens` | client-open.go:368-379 | The token loop returns the literal bytes, in order, and leaves the stream behind the end marker |
| `Transfer.ReadBody` | client-open.go:364-389 | The tokens and the checksum comparison |
| `Selectors.SelectorRoundTrip` | protocol/selector.go:16-95 | A selector is read back as the version carries it, consuming exactly its bytes, if and only if the version can carry the index, all but the least int32 from 30 on, and the flags travel or announce no optional field |
| `Selectors.WriteSelector` | protocol/selector.go:65-95 | Writes index, flags and optional fields; fails exactly on an announced name over 32767 bytes |
| `Selectors.ReadSelector` | protocol/selector.go:16-60 | Reads a selector, moving the tracker, or fails as specified |
| `Selectors.VstringRoundTrip` | protocol/vstring.go:11-64 | A string of up to 32767 bytes comes back, whatever follows |
| `WireInts.DigitsRoundTrip` | protocol/wireint.go:71-168 | The shared scheme of varint and varlong gives the digits back and consumes exactly its bytes |
| `WireInts.VarintRoundTrip` | protocol/wireint.go:71-115 | Every int32 survives as a varint, whatever follows |
| `WireInts.VarlongRoundTrip` | protocol/wireint.go:119-168 | Every int64 survives as a varlong with every minimum from 3 to 8 |
| `WireInts.LongIntRoundTrip` | protocol/wireint.go:173-209 | Every int64 survives as a longint |
| `WireInts.I32RoundTrip` | protocol/wireint.go:19-33 | Every int32 survives in little-endian order |
| `WireInts.VarintPanicsExactly` | protocol/wireint.go:101-109 | The reader leaves its five-byte buffer if and only if the first byte is 0xFC or more, or is 0xF8 or more and five bytes follow |
| `WireInts.VarlongPanicsExactly` | protocol/wireint.go:144-165 | With every minimum from 3 to 8 the reader leaves its nine-byte buffer if and only if minimum and announced bytes are more than nine and all arrive |
| `WireInts.WriteVarint` | protocol/wireint.go:71-92 | The in-place filling of the buffer gives the encoding, within the buffer |
| `WireInts.WriteVarlong` | protocol/wireint.go:119-140 | The same for varlongs |
| `WireInts.ReadVarint` | protocol/wireint.go:95-115 | Reads a varint through the fixed buffer, or fails as specified |
| `WireInts.ReadVarlong` | protocol/wireint.go:144-168 | Reads a varlong through the fixed buffer, or fails as specified |
| `Ndx.NdxRoundTrip` | protocol/wireint.go:225-350 | An index survives, both trackers moving alike, if and only if it is not the least int32 |
| `Ndx.RunRoundTrip` | protocol/wireint.go:225-350 | So does every sequence of indices, the reader ending with the writer's trackers where the writer stopped |
| `Ndx.DoneNeedsNoTracker` | server-send.go:799-833 | NDX_DONE is decoded by a reader in any state, whatever the writer's state |
| `Ndx.NdxState.WriteNdx` | protocol/wireint.go:225-289 | Fills the buffer in place with the encoding and updates the tracker of the index's sign |
| `Ndx.NdxState.ReadNdx` | protocol/wireint.go:294-350 | Decodes, updating the tracker, or fails leaving the trackers |
| `Mux.MuxTransparent` | protocol/mux/mux.go:83-287 | For any interleaving of writes, flushes and logging messages before a final flush, any buffer size and any read sizes, exactly the written bytes are delivered in order, all of them before an end is seen and after enough reads |
| `Mux.RunData` | protocol/mux/mux.go:83-141 | Over every run, framed data followed by pending data is what was written |
| `Mux.ReadsDeliver` | protocol/mux/mux.go:217-247 | Reads of any sizes deliver a prefix of the data, and fail only when all was delivered |
| `Mux.ReadsProgress` | protocol/mux/mux.go:217-247 | A read that asks for something delivers something or fails |
| `Mux.FrameRoundTrip` | protocol/mux/mux.go:148-162 | Every frame survives, for codes at which the base wraps as well |
| `Mux.Accept` | protocol/mux/mux.go:83-107 | One write keeps pending data within a positive buffer size |
| `Mux.RunBounded` | protocol/mux/mux.go:83-141 | So does every run of writes, flushes and messages |
| `Mux.Writer.Write` | protocol/mux/mux.go:83-107 | The loop emits the frames and leaves the pending data that `RunData` is about |
| `Mux.Writer.Flush` | protocol/mux/mux.go:111-131 | Emits all pending data in frames of at most the maximal payload |
| `Mux.Writer.SendMsg` | protocol/mux/mux.go:136-162 | Emits pending data and then the message, unless that is too long for a frame |
| `Mux.Reader.Read` | protocol/mux/mux.go:217-247 | Returns up to n bytes of buffered or next data, skipping logging messages and empty frames, or fails |
| `Pipe.RunsKeepInv` | pipe.go:55-106 | Runs keep the invariant from any state in it, and bytes buffered before Close are delivered before end of file |
| `Pipe.PipeIsFifo` | pipe.go:49-106 | From a new pipe, over every run, delivered bytes followed by buffered ones are the accepted ones, within the capacity, and end of file is seen only on a closed pipe whose accepted bytes were all delivered |
| `Pipe.WriteCompletes` | pipe.go:55-95 | Over every schedule of passes of writer and reader, whatever the read sizes, the number of passes is bounded, and when neither side has one left the whole write has been delivered |
| `Pipe.PassMoves` | pipe.go:55-95 | Every pass keeps what is delivered, buffered and pending in order, and leaves less to do |
| `Pipe.NeverBothWait` | pipe.go:55-95 | Writer and reader never wait for each other |
| `Pipe.NoLostWakeUp` | pipe.go:55-106 | Over every run with sides asleep until a Broadcast, a side that sleeps still has to wait; so every step the pipe allows can be taken by a side that is awake, and the two never both sleep |
| `Pipe.SleepersComplete` | pipe.go:55-95 | Over every schedule of passes and sleeps their number is bounded, and when no side that is awake has a pass left the whole write has been delivered |
| `Pipe.SleepChangesNothing` | pipe.go:55-106 | A run with sleeping is a run of the pipe with sleeps in between |
| `Pipe.MoveWorks` | pipe.go:55-95 | Every pass or sleep keeps the stream in order and leaves less to do |
| `Pipe.InvKept` | pipe.go:55-106 | Every pass keeps the invariant, and nothing is accepted after Close |
| `Pipe.PipeBuf.WriteOnce` | pipe.go:55-80 | One pass of the write loop falls asleep, fails, or moves and wakes the sleepers, as the run model says |
| `Pipe.PipeBuf.ReadOnce` | pipe.go:82-95 | One pass of the read loop falls asleep, ends, or moves and wakes the sleepers, as the run model says |
| `Pipe.PipeBuf.Close` | pipe.go:97-106 | Closes the pipe and, the first time, wakes the sleepers |
| `Greetings.GreetingRoundTrip` | protocol/greet.go:22-86 | A greeting survives, whatever follows its line, if and only if the subprotocol is one digit and the digests are words |
| `Greetings.PeersAgree` | client-connect.go:113-126 | Each peer, from its own greeting and the line it read, computes the same version, subprotocol and digest, or both give up |
| `Greetings.Negotiate` | protocol/greet.go:97-148 | The branches and loops compute the outcome, whose digest is the first of the client's that the server has |
| `Greetings.VersionFair` | protocol/greet.go:99-121 | The version is the same with the roles exchanged, and exceeds neither peer's if and only if the step down does not wrap |
| `Greetings.VersionWraps` | protocol/greet.go:99-121 | A greeting with version -2^63 and subprotocol 1 is read as such and makes both peers agree on 2^63-1 |
| `Greetings.SamePick` | protocol/handshake.go:254-265 | Peers whose lists follow one order of preference pick the same name |
| `Greetings.PicksDiffer` | protocol/handshake.go:203-212 | Peers whose lists do not may pick different names |
| `Greetings.AlgorithmsAgree` | protocol/handshake.go:213-250 | Through the exchanged lists both peers get the same algorithms and are left where the other stopped |
| `Greetings.ListsRoundTrip` | protocol/handshake.go:213-250 | The picks are made against the peer's very lists when both or neither negotiate compression |
| `Greetings.PickOne` | protocol/handshake.go:254-265 | The loops return the first own name in the peer's list, or the empty name |
| `Greetings.ReadLine` | protocol/handshake.go:28-41 | The loop returns the bytes before the newline and leaves those behind it |

## Left out

- MD4, MD5 and base64: the strong hash and the whole-file checksum are parameters; the transfer theorems ask only that the checksum has 16 bytes.
- Authentication, the message of the day, module lists, root mode, argument parsing and compatibility flags: text and flag handling with shallow properties.
- Walking the file system, stat, time normalisation and opening backing files: the entries and the contents are given.
- The order in which the handshake's text lines are exchanged: the session model starts at the checksum seed.
- Sessions: messages are units; that the session's bytes are understood is what `Conversation` states.
- Requests after the first phase, delete statistics, keep-alives and metadata echoes: `Conversation.ReactTo` models these branches; the theorems are about what this client sends.
- The sum of the file sizes in the statistics: the values are given.
- Abbreviated hard links, owner names in entries, creation times and incremental recursion: no writer here produces them; the reader's abbreviated branch is modelled without a theorem.
- Peer bytes that no writer produces, beyond the guards of ReadSumHead and ReadEntry, the panics of the integer readers and lists that are cut off.
- How much of a stream is consumed when a read fails: only successful reads state what is left; behind io.EOF nothing is.
- Library sorts: modelled by a stable insertion sort; `ArrivalOrderIrrelevant` shows that any sort by the comparison gives the same list.
- ReadDataChunk, RecvMsg and SetBufferSize of the mux layer, with negative buffer sizes.
- ListRoundTrip: is about lists of writable entries; whether a list with another entry in it can by chance be read as it should be is not decided, only that the entry cannot.
- Greetings: text is ASCII; the Unicode spaces that the library functions also split at are not modelled.
- SearchRebuilds: whether two different contents with equal strong hashes exist is not decided; the absence of such a pair between windows and blocks is a premise.
- Error message texts, wrapping and file-information accessors.
