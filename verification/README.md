# DEFLATE codec and asynchronous runtime, modelled in Dafny

This project models two parts of the repository and proves what they promise.

**The DEFLATE codec** (`upstream/libz/libz`, sections of RFC 1950 and RFC 1951).

- Decoding: `InflateTable` builds two-level tables, `InflateSpec` is the bufferless machine that decodes by code lengths
  alone, `Inflate` is the resumable machine with accumulator, tables, circular window and buffers, and `InflateFast` is the
  unchecked loop. The last two are proved to follow the bufferless machine exactly.
- The format: `Format` is the grammar of RFC 1951 and RFC 1950 over bits, without states. `Accepted` to `AcceptedStream`
  prove that whatever inflate ends well is a stream of it, `AllBlocks` and `AllStreams` that every stream of it is taken, and
  `StreamBytes` states both for bytes cut in any way.
- Encoding: `TreeHeap` to `TreeCodes` build length-limited Huffman codes, `Huffman` and `TreeOptimal` prove them shortest,
  `TreeSizes` and `BlockSizes` account for every bit, `CodeLengths` and `CodeRuns` run-length encode the lengths, `BitWriter`,
  `BlockWriter` and `TreeFlush` write blocks; `Hash` to `Deflate` find matches through hash chains, and `Choices` says which
  symbols the two strategies may choose, given what was searched.
- Together: `Compress` and `WholeStream` take data through deflate and back through inflate.
- Checksums: `Adler`, `Crc32`, `CrcPowers`, `CrcBytes` and `CrcResidue`.

**The asynchronous runtime** (`libiw4x/libiw4x/gdk`).

- `AsyncModel` is the lifetime protocol of `async.cxx` as atomic steps of concurrent calls; `AsyncProof`, `AsyncInvariant`,
  `AsyncRuns`, `AsyncOutcomes` and `AsyncProgress` prove what holds on every interleaving.
- `TaskPort` and `QueuePool` are the callback ring and the pool of `task-queue.cxx` as classes; `PortRuns` and `PoolRuns`
  state what holds on every run of them and tie the runs to the classes.

A bit stream is a number with a length, least significant bit first. Output is one growing sequence. A code is given by its
lengths, and a symbol is decoded as section 3.2.2 of RFC 1951 defines it.

## Model

| member | source | states |
|---|---|---|
| `InflateTable.InflateTable` | upstream/libz/libz/inftrees.c:32-299 | Returns -1 exactly for a refused set of lengths, 1 exactly when the entries the two levels need exceed the space, else 0 with tables that give, for every bit string, the entry of the one symbol whose canonical code starts it and drop that code's length over both levels (the invalid entry where an incomplete code matches nothing); the root bits are those asked for, forced within the code lengths, and exactly `Need` entries are used |
| `InflateTable.BuildTable` | upstream/libz/libz/inftrees.c:192-289 | The loop over all codes, with its space check: every symbol entered, the used entries equal to `Need`, and 1 exactly when `Need` exceeds the space |
| `InflateTable.SubTableBits` | upstream/libz/libz/inftrees.c:261-270 | Looking ahead in the remaining counts finds exactly how far the longest code with the current prefix goes beyond the root |
| `InflateTable.EnterSymbol` | upstream/libz/libz/inftrees.c:211-231 | Replicating an entry adds one symbol to those the table decodes and disturbs none entered before |
| `InflateTable.BackIncrement` | upstream/libz/libz/inftrees.c:234-243 | The backwards increment gives the next code in canonical order, or zero after the last one |
| `InflateTable.NextCode` | upstream/libz/libz/inftrees.c:245-250 | Steps to the next symbol, length and code in canonical order; done exactly after the last |
| `InflateTable.SortSymbols` | upstream/libz/libz/inftrees.c:135-142 | Sorted by length and by symbol within a length: symbol s stands at the place its length and rank give it |
| `InflateTable.CheckCode` | upstream/libz/libz/inftrees.c:101-133 | Accepts exactly the sets that are neither over-subscribed nor incomplete beyond a single one-bit code; root bits forced within the shortest and longest length |
| `Canonical.UniqueMatch` | upstream/libz/libz/inftrees.c:73-81 | The canonical code that the tables decode (section 3.2.2 of RFC 1951) is prefix free: no two symbols' codes start one bit string |
| `Canonical.CompleteMatch` | upstream/libz/libz/inftrees.c:73-81 | With a complete set of lengths every bit string starts with exactly one symbol's code |
| `TableNeed.FilledDepth` | upstream/libz/libz/inftrees.c:261-270 | Where codes of length root + d use up a prefix and shorter ones do not, its longest code exceeds the root by exactly d |
| `TableNeed.NoSubTables` | upstream/libz/libz/inftrees.c:252-282 | Prefixes used up by codes within the root need no sub-table |
| `InflateChunks.StepFed` | upstream/libz/libz/inflate.c:590-1264 | A step that can be taken is taken in the same way when more input and output space is there: stopping inside a field and resuming changes nothing |
| `InflateChunks.ChunksDoNotMatter` | upstream/libz/libz/inflate.c:590-1264 | Two ways of cutting the same input and the same output space drive the stream to the same state: output, verdict and field to resume in |
| `InflateChunks.DrivesAtOnce` | upstream/libz/libz/inflate.c:590-1264 | Calls on any chunks end where one call on everything ends |
| `Inflate.Inflater.Inflate` | upstream/libz/libz/inflate.c:590-1264 | One call: with accumulator, tables, buffer and window it goes as far as the bufferless stream goes on the bytes given so far and no further; the bytes written are the growth of that output; the return code says exactly whether the stream ended, is bad, needs a dictionary, or the call did nothing |
| `Inflate.Inflater.Go` | upstream/libz/libz/inflate.c:617-1235 | One turn of the switch follows the bufferless stream; fewer than 8 bits are held whenever a case goes on to LEN, and all bits there are when a call leaves in LEN |
| `Inflate.DecodeChunks` | upstream/libz/libz/inflate.c:590-1264 | Any series of calls drives the machine as those chunks drive the bufferless stream, from a stream not yet begun |
| `Inflate.InflateAll` | upstream/libz/libz/inflate.c:590-1264 | From initialisation through any chunks: output and verdict are those of the bufferless stream |
| `Inflate.Inflater.constructor` | upstream/libz/libz/inflate.c:178-216 | A stream not yet begun satisfies the invariant between calls |
| `Inflate.NewStream` | upstream/libz/libz/inflate.c:178-216 | inflateInit2_ with its buffers and tables reaches the invariant between calls |
| `Inflate.MakeFixed` | upstream/libz/libz/inflate.c:252-291 | fixedtables, built at run time: usable tables of 9 and 5 index bits for the fixed codes |
| `Inflate.FixedBits` | upstream/libz/libz/inflate.c:263-279 | The fixed codes take 512 and 32 entries and keep 9 and 5 root bits, as the 544-entry array assumes |
| `Inflate.StepShrinks` | upstream/libz/libz/inflate.c:617-1235 | Every step uses up bits or output space or comes nearer to one that does, so a call ends |
| `InflateCases.HeadCase` | upstream/libz/libz/inflate.c:622-670 | HEAD for raw and zlib streams: the header check, the method, the window size and the dictionary flag decide as the specification step does; no byte too many is pulled |
| `InflateCases.TypeCase` | upstream/libz/libz/inflate.c:827-862 | TYPEDO: last-block handling and the three kinds of block |
| `InflateCases.StoredCase` | upstream/libz/libz/inflate.c:863-877 | STORED: byte boundary, length and complement |
| `InflateCases.CopyCase` | upstream/libz/libz/inflate.c:881-897 | COPY: as many bytes as input, space and length allow |
| `InflateCases.TableCase` | upstream/libz/libz/inflate.c:898-916 | TABLE: the three counts and their limits |
| `InflateHeader.LenLensCase` | upstream/libz/libz/inflate.c:917-937 | LENLENS: the code length code lengths in their order, resumable after each |
| `InflateHeader.CodeLensCase` | upstream/libz/libz/inflate.c:939-985 | CODELENS: literal lengths and the three repeats, resumable inside a symbol, refusing a repeat without a length or beyond the total |
| `InflateHeader.CodeLensDone` | upstream/libz/libz/inflate.c:987-1022 | The end-of-block check and both tables: the mode and tables of the specification step, also where a table does not fit |
| `InflateCases.LenCase` | upstream/libz/libz/inflate.c:1036-1075 | LEN, checked: the table lookup finds the symbol the code lengths define, or waits |
| `InflateCases.DistCase` | upstream/libz/libz/inflate.c:1087-1114 | DIST, likewise |
| `InflateCases.MatchCase` | upstream/libz/libz/inflate.c:1132-1176 | MATCH: copies from window or output as far as space allows, equal to byte-by-byte copying from `offset` back; a distance too far back is refused |
| `InflateCases.CheckCase` | upstream/libz/libz/inflate.c:1183-1207 | CHECK, resumable: goes where the step of the bufferless stream goes. What the trailer decides is stated by `StreamBytes.DoneIsStream`, `StreamBytes.DoneIff` and `StreamBytes.AlteredTrailer` |
| `TableDecode.FindCode` | upstream/libz/libz/inflate.c:1036-1052 | The two-level lookup with bytes pulled one at a time finds the symbol, pulls no more bytes than needed, and asks for more exactly when the code is not decided |
| `InflateOutput.Output.CopyMatch` | upstream/libz/libz/inffast.c:165-261 | All window-copy branches of inflate_fast equal copying byte by byte from `dist` back in the history |
| `InflateOutput.Output.EndCall` | upstream/libz/libz/inflate.c:1244-1250 | The window update at the end of a call keeps the last 32K of history reachable |
| `InflateFast.InflateFast` | upstream/libz/libz/inffast.c:50-304 | From LEN with fewer than 8 bits held (or a code cut short by the last buffer), 6 input bytes and 258 bytes of space: ends with the output, bit position and mode that inflate's own cases reach; fewer than 8 bits are held at the end |
| `FastEntry.RestsInLen` | upstream/libz/libz/inffast.c:23-29 | A raw stream that begins FB FF FF FF FF FF FF, with room for five bytes, comes to rest in LEN with 8 bits unread: a code is cut short |
| `FastEntry.EightBitsHeld` | upstream/libz/libz/inflate.c:1026-1035 | inflate called on those bytes returns in LEN holding 8 bits, so a next call with 6 bytes and room for 258 enters inflate_fast with 8 |
| `InflateFast.FastSymbol` | upstream/libz/libz/inffast.c:100-287 | One iteration takes at most 6 bytes of input and 258 of space and equals the checked cases |
| `BitReader.Reader.Pull` | upstream/libz/libz/inflate.c:474-480 | A byte is pulled only with at most 24 bits held, so the accumulator never holds more than 32; the bit stream stays the same |
| `BitReader.Reader.GiveBack` | upstream/libz/libz/inffast.c:289-293 | Handing back whole bytes leaves the bit stream as it was and fewer than 8 bits held |
| `WholeStream.StepSame` | upstream/libz/libz/inflate.c:987-1022 | Table space matters in one place only: a code that needs too many entries |
| `WholeStream.LimitedEnd` | upstream/libz/libz/inflate.c:987-1022 | A stream that ends, well or badly, with unlimited table space ends in the same way, or as bad data, the latter exactly when it comes to a code that needs more than ENOUGH entries |
| `Accepted.BodySound` | upstream/libz/libz/inflate.c:1026-1182 | A block body that ends takes exactly the bits of items and an end of block in the grammar of sections 3.2.3 to 3.2.7 of RFC 1951, and the output grows by what the items stand for |
| `AcceptedHeader.HeaderSound` | upstream/libz/libz/inflate.c:898-1024 | A dynamic header that is taken is one of that grammar: counts within their limits, a complete code length code, lengths that fill both codes exactly, an end of block, codes that can be read |
| `AcceptedStream.AcceptedIsStream` | upstream/libz/libz/inflate.c:617-1207 | Whatever ends in DONE has taken exactly a stream of the format that stands for the output: header check, method, window and no dictionary; blocks of the three types only; stored lengths with their complement; distances within the output; the Adler-32 trailer |
| `AllBlocks.BodyTaken` | upstream/libz/libz/inflate.c:1026-1182 | Every body of the grammar is taken and gives its output, in whatever code, also incomplete ones, and with either code of length 258 |
| `AllBlocks.HeaderTaken` | upstream/libz/libz/inflate.c:898-1024 | Every dynamic header of the grammar is taken, however its lengths are coded |
| `AllBlocks.BlocksTaken` | upstream/libz/libz/inflate.c:827-1182 | Every sequence of blocks of the grammar is taken, with any filling before stored bytes |
| `AllStreams.TrailerTaken` | upstream/libz/libz/inflate.c:1183-1207 | Four bytes end the stream well if they are the checksum, high byte first, and are bad data otherwise |
| `AllStreams.DoneExactly` | upstream/libz/libz/inflate.c:617-1207 | Inflate ends well with an output if and only if the input starts with a stream of the format that stands for it |
| `StreamBytes.DoneIsStream` | upstream/libz/libz/inflate.c:590-1264 | On chunks cut in any way: in DONE the bytes taken are a stream of the format, nothing after them is taken, and with a zlib header the last four, high byte first, are the Adler-32 of the output |
| `StreamBytes.DoneIff` | upstream/libz/libz/inflate.c:590-1264 | On chunks cut in any way, with enough space: DONE with this output if and only if the bytes start with a stream of the format that stands for it and no code in it needs more than ENOUGH entries |
| `StreamBytes.CompressedIsStream` | upstream/libz/libz/deflate.c:946-1256 | All bytes that deflate writes are one stream of the format, whoever reads them |
| `StreamBytes.AlteredTrailer` | upstream/libz/libz/inflate.c:1183-1207 | What deflate wrote, with any of its last four bytes changed, ends as bad data |
| `Window.Sliding.Update` | upstream/libz/libz/inflate.c:368-412 | The circular window read from its write index is the last window-size bytes of what it held and what is added; whave is wsize or wnext |
| `Window.HeldIsLast` | upstream/libz/libz/inflate.c:368-412 | After any series of updates the window holds the last bytes of all that was supplied |
| `Window.Supply` | upstream/libz/libz/inflate.c:368-412 | A window updated with any pieces, one after the other, ends with the last bytes of their concatenation, for every window size |
| `Window.Sliding.GetDictionary` | upstream/libz/libz/inflate.c:1278-1296 | Returns exactly those bytes in order, and how many |
| `Window.SyncSearch` | upstream/libz/libz/inflate.c:1355-1373 | Over any pieces: `have` is the longest prefix of 00 00 FF FF that ends what was read, and the search stops exactly at the end of the first occurrence |
| `Window.AdvanceIsLongest` | upstream/libz/libz/inflate.c:1361-1370 | One byte keeps `have` the longest such prefix, including the partial-match rule |
| `TreeHeap.PqDownHeap` | upstream/libz/libz/trees.c:507-527 | Restores the heap order below a node and keeps the nodes |
| `TreeMerge.InitHeap` | upstream/libz/libz/trees.c:637-660 | The heap of the symbols in use; symbols are forced only up to two, with opt_len and static_len lowered by what they will add |
| `TreeMerge.MergeAll` | upstream/libz/libz/trees.c:670-695 | Repeated merging gives one tree: every node placed once, each son after its father, by falling frequency, each father as frequent as its sons together |
| `TreeLengths.FirstPass` | upstream/libz/libz/trees.c:552-575 | Depths cut at max: twice the Kraft sum exceeds its full value by exactly overflow, and lengths below max do not over-subscribe; opt_len and static_len grow by the bits of the symbols; without overflow lengths are depths |
| `TreeDepths.TooDeep` | upstream/libz/libz/trees.c:559-563 | A tree with a node deeper than max has at least Fib(max + 3) symbol occurrences: 2584 for 15 bits, 55 for 7 |
| `Huffman.LowerBound` | upstream/libz/libz/trees.c:616-624 | For any weights and any code lengths that satisfy the Kraft inequality, the weighted length is at least the sum of all merges of the two least weights |
| `TreeOptimal.CostOfLive` | upstream/libz/libz/trees.c:670-695 | Before every merge, the weighted depths of the live nodes are what merging their frequencies costs |
| `TreeOptimal.TreeIsOptimal` | upstream/libz/libz/trees.c:529-537 | Depths in the tree are optimal: no prefix code, of whatever lengths, takes fewer bits for the frequencies |
| `TreeLimits.LimitedNotOptimal` | upstream/libz/libz/trees.c:529-537 | For every limit, frequencies 1, 1, 2, 4, ... 2^limit make every prefix code within the limit longer than the best |
| `TreeOptimal.NodesWithin` | upstream/libz/libz/trees.c:670-681 | No node is more frequent than all symbols together |
| `TreeCodes.Redistribute` | upstream/libz/libz/trees.c:580-591 | The overflow loop keeps the number of leaves, removes exactly the excess, and never looks below length 1 |
| `TreeCodes.GenBitlen` | upstream/libz/libz/trees.c:538-612 | Lengths of at most max with Kraft sum exactly one, for every symbol of the tree; optimal unless they had to be limited, which takes Fib(max + 3) occurrences; opt_len and static_len grow by the bits of the symbols in this code and in the fixed one |
| `TreeCodes.BiReverse` | upstream/libz/libz/trees.c:154-161 | The low len bits in reverse order |
| `TreeCodes.GenCodes` | upstream/libz/libz/trees.c:202-231 | Every symbol gets its canonical code, first bit lowest |
| `TreeCodes.BuildTree` | upstream/libz/libz/trees.c:625-704 | For every frequency table: each used symbol gets a length in 1..max, the set is complete, so inflate_table does not refuse it, and the codes are the canonical ones. Unless the lengths had to be limited, which takes at least Fib(max + 3) occurrences, no prefix code for the given frequencies is shorter. opt_len and static_len grow by exactly the bits of the given frequencies, forced symbols costing nothing |
| `TreeCodes.GrowTree` | upstream/libz/libz/trees.c:637-695 | The tree of the frequencies: every node at most their total, so that 16 bits hold it (with BlockSizes.FrequenciesFit) |
| `BitWriter.Writer.SendBits` | upstream/libz/libz/trees.c:252-285 | Appends exactly those bits to the stream through the 16-bit buffer |
| `BitWriter.Writer.Flush` | upstream/libz/libz/trees.c:166-176 | Moves whole bytes out and changes no bit; fewer than 8 stay |
| `BitWriter.Writer.Windup` | upstream/libz/libz/trees.c:181-192 | Pads with zero bits to a byte and empties the buffer |
| `CodeLengths.TreeTokensMean` | upstream/libz/libz/trees.c:710-792 | The code length symbols of any array of lengths, read as section 3.2.7 of RFC 1951 says, give back that array |
| `CodeRuns.TreeTerse` | upstream/libz/libz/trees.c:751-792 | No three zeros and no four equal lengths are ever sent plainly, and a repeat that more of the same follows is as long as it can be |
| `CodeRuns.NotFewest` | upstream/libz/libz/trees.c:751-792 | Yet the symbols are not always the fewest: nine lengths of 1 take four, where three would do |
| `CodeLengths.ScanTree` | upstream/libz/libz/trees.c:710-745 | Counts exactly the symbols that send_tree sends |
| `CodeLengths.SendTree` | upstream/libz/libz/trees.c:751-792 | Writes exactly those symbols with their extra bits |
| `SymbolCodes.InitLengths` | upstream/libz/libz/trees.c:316-329 | length_code and base_length name, for every length, the code and base that decode to it |
| `SymbolCodes.InitDists` | upstream/libz/libz/trees.c:331-347 | dist_code and base_dist, likewise for every distance to 32768 |
| `StaticTrees.StaticInit` | upstream/libz/libz/trees.c:349-366 | The static trees hold the canonical codes of the fixed lengths |
| `HeaderDecode.HeaderRun` | upstream/libz/libz/inflate.c:898-1024 | The header of a dynamic block, read by the TABLE, LENLENS and CODELENS states, gives the two codes that were sent |
| `BlockDecode.BodyRun` | upstream/libz/libz/inflate.c:1026-1182 | The bits of any items under any codes that cover them decode to those items and the end of the block |
| `BlockWriter.CompressBlock` | upstream/libz/libz/trees.c:898-949 | Writes exactly the bits of the tallied items and the end of the block |
| `BlockWriter.SendAllTrees` | upstream/libz/libz/trees.c:831-852 | Writes exactly the header bits of both trees |
| `TreeState.CountCodes` | upstream/libz/libz/trees.c:811-817 | The last code length code length that is not zero, at least four sent |
| `TreeFlush.BuildBlTree` | upstream/libz/libz/trees.c:798-825 | A complete code of at most 7 bits that can send every symbol both trees need; opt_len grows by exactly the bits of the header |
| `TreeFlush.Trees.Tally` | upstream/libz/libz/trees.c:1093-1117 | Adds one literal or match to the block; the frequencies are exactly the counts of the symbols tallied; says whether the buffer is full |
| `TreeFlush.Trees.BuildTrees` | upstream/libz/libz/trees.c:1000-1022 | Three codes that can send everything tallied; opt_len is then exactly the bits of header and body with these codes, static_len those of the body with the fixed codes |
| `BlockSizes.BodyLength` | upstream/libz/libz/trees.c:1014-1017 | The bits of any items in any code are the counts of their symbols times code and extra bits |
| `BlockSizes.HeaderLength` | upstream/libz/libz/trees.c:807-819 | The bits of a header from its counts and symbols |
| `BlockSizes.CountsTotal` | upstream/libz/libz/trees.c:1093-1117 | As many symbols are counted as there are items, and one for the end of the block |
| `BlockSizes.FrequenciesFit` | upstream/libz/libz/deflate.c:512-517 | No frequency of a block and its trees exceeds 16 bits |
| `TreeFlush.ChooseKind` | upstream/libz/libz/trees.c:1024-1063 | The kind chosen takes no more bytes than any other kind that is open |
| `TreeFlush.StoredBlock` | upstream/libz/libz/trees.c:858-873 | A stored block reads back as its bytes |
| `TreeFlush.Trees.FlushBlock` | upstream/libz/libz/trees.c:995-1086 | Writes the kind of block that takes the fewest bytes, with as many bits as static_len and opt_len say, never more than 42 bits above the bytes if they are there to be stored. Its bits decode through the block states to exactly the tallied items and end of block (or, stored, to their bytes); the next block starts empty |
| `BlockReads.FixedReads` | upstream/libz/libz/trees.c:1056-1059 | A fixed block reads as its items |
| `BlockReads.DynamicReads` | upstream/libz/libz/trees.c:1063-1068 | A dynamic block reads as its items |
| `BlockReads.StoredReads` | upstream/libz/libz/trees.c:858-873 | A stored block reads as its bytes from any bit position |
| `BlockReads.ReadsCat` | upstream/libz/libz/inflate.c:827-862 | Blocks one after the other read as their items one after the other |
| `Hash.Forgets` | upstream/libz/libz/deflate.c:135-141 | After three updates the running hash depends on the last three bytes only |
| `Hash.ThirdByte` | upstream/libz/libz/deflate.c:1446-1453 | With the first two bytes equal, equal hashes force the third byte equal, which longest_match relies on when it skips the comparison |
| `Chains.InsertKeeps` | upstream/libz/libz/deflate.c:155-164 | INSERT_STRING keeps every in-range chain entry an earlier position with the same hash |
| `Chains.SlideKeeps` | upstream/libz/libz/deflate.c:187-208 | slide_hash keeps that for the moved window |
| `Chains.ReadKeeps` | upstream/libz/libz/deflate.c:218-240 | Reading more input keeps that |
| `Matcher.Finder.Insert` | upstream/libz/libz/deflate.c:155-164 | The returned head is the last earlier string with this hash, or none in the window; the chains stay right |
| `Matcher.Finder.Slide` | upstream/libz/libz/deflate.c:266-284 | Moving the window down keeps what it shows and the chains |
| `Matcher.Finder.FillWindow` | upstream/libz/libz/deflate.c:251-361 | Window, chains and waiting strings stay right; all input is read or there is enough lookahead |
| `Matcher.Finder.LongestMatch` | upstream/libz/libz/deflate.c:1348-1489 | A result longer than prev_length is a true match within MAX_DIST and the lookahead, and the nearest of its length; nothing searched matches longer: every string in the window with this hash down to where the search stopped; it stops when the window is out, a nice match is found, or exactly the chain length of strings has been tried |
| `Matcher.Finder.SearchChain` | upstream/libz/libz/deflate.c:1391-1485 | The loop over the chain, with the same claims before the result is cut to the lookahead |
| `Deflate.Deflater.DeflateFast` | upstream/libz/libz/deflate.c:1811-1902 | The symbols tallied so far rebuild the input consumed, at the end all of it, and each was chosen by the rules (`Choices.FastRun`): a literal only where no string searched matches three bytes, else the longest match and the nearest of that length; every search sees the window back to MAX_DIST, the strings that the symbols before entered, and 262 bytes ahead or all there are |
| `Deflate.Deflater.FastSymbol` | upstream/libz/libz/deflate.c:1828-1892 | One symbol: a literal only where the search, which stopped for want of strings in reach or tries or at a nice match, found no match of three bytes; otherwise the longest match found, at its nearest place |
| `Deflate.Deflater.DeflateSlow` | upstream/libz/libz/deflate.c:1910-2030 | The same, up to the one literal still put off, by the lazy rule (`Choices.SlowRun`): a waiting match is dropped only for a longer one at the next byte, a literal only where nothing counts or for that longer match, the search skipped only while a match of max_lazy waits; each search is the one the symbol before looked ahead to |
| `Deflate.Deflater.Search` | upstream/libz/libz/deflate.c:1936-1959 | What the search gives: the longest match found if it is longer than the one waiting, and nothing for one of at most 5 bytes that is filtered or of 3 bytes too far away |
| `Choices.StageLiteral` | upstream/libz/libz/deflate.c:1998-2011 | Putting off the current byte makes the one before a literal that the rules allow |
| `Choices.StageMatch` | upstream/libz/libz/deflate.c:1963-1996 | Taking the waiting match is what the rules demand, once its strings are entered |
| `Lz77.CopyIsData` | upstream/libz/libz/deflate.c:1557-1583 | Copying back along a match rebuilds the input, also where source and target overlap |
| `RoundTrip.RawRoundTrip` | upstream/libz/libz/deflate.c:1228-1229 | Blocks that rebuild the data, padded to a byte, inflate to the data |
| `RoundTrip.ZlibRoundTrip` | upstream/libz/libz/deflate.c:994-1013 | With zlib header and Adler-32 trailer: accepted, the data, and no bit left |
| `Compress.WriteBlocks` | upstream/libz/libz/deflate.c:1589-1610 | Symbols cut into blocks where the buffer is full, and anywhere else: the blocks hold exactly these symbols in order, a stored block their bytes, and rebuild the data |
| `Compress.FindSymbols` | upstream/libz/libz/deflate.c:1811-2030 | Both match finders, called again after every early return, tally symbols that rebuild the whole input, each chosen by the rules from the first to the last |
| `Compress.PutTrailer` | upstream/libz/libz/deflate.c:1244-1248 | The checksum as four bytes, high byte first |
| `Compress.Compress` | upstream/libz/libz/deflate.c:946-1256 | For every input, level limits, block cutting and kind of block: the bytes written are exactly header, blocks of the symbols the rules choose, filling and Adler-32 trailer, and they inflate to the input with no bit left, raw or zlib-wrapped |
| `WholeStream.ComesBack` | upstream/libz/libz/inflate.c:590-1264 | The real machine on those bytes, however cut, with enough space: mode Done and the data, or Bad exactly when a block has a code that needs more than ENOUGH entries |
| `WholeStream.ThereAndBack` | upstream/libz/libz/deflate.c:946-1256 | deflate followed by inflate on any chunks returns the data under that same condition |
| `Adler.PlainBound` | upstream/libz/libz/adler32.c:12-15 | Starting from sums of at most 16 bits each, neither leaves 32 bits within NMAX bytes |
| `Adler.AddBlock` | upstream/libz/libz/adler32.c:96-106 | Deferred modulo equals taking it at every byte |
| `Adler.Adler32` | upstream/libz/libz/adler32.c:61-126 | On every input and every starting value, in all three length cases, equals the definition of section 2.2 of RFC 1950 modulo 65521; the result is reduced except, exactly, where a single byte meets an unreduced start that is too large for the one subtraction |
| `Adler.ClosedForm` | upstream/libz/libz/adler32.c:61-126 | The checksum is the closed form of RFC 1950: one plus the sum of the bytes, and the sum of all those sums, modulo 65521 |
| `Adler.LargestPrime` | upstream/libz/libz/adler32.c:10-10 | BASE is the largest prime below 65536 |
| `Adler.ChecksumCat` | upstream/libz/libz/adler32.c:61-126 | Cutting the input across calls does not matter |
| `Adler.Combine` | upstream/libz/libz/adler32.c:133-156 | The checksum of the concatenation; all ones for a negative length |
| `Crc32.MulComm` | upstream/libz/libz/crc32.c:155-169 | Multiplication modulo the CRC polynomial is commutative |
| `Crc32.MulAssoc` | upstream/libz/libz/crc32.c:155-169 | and associative |
| `Crc32.MulLinear` | upstream/libz/libz/crc32.c:155-169 | and distributes over addition |
| `Crc32.XToThe32` | upstream/libz/libz/crc32.c:155-169 | x^32 is the polynomial 0xedb88320 |
| `Crc32.MultModP` | upstream/libz/libz/crc32.c:155-169 | multmodp computes that product |
| `Crc32.MakePowers` | upstream/libz/libz/crc32.c:325-329 | The table of x^(2^n) |
| `CrcPowers.StoredTable` | upstream/libz/libz/crc32.h:9439-9446 | The constants stored in x2n_table are those powers |
| `CrcPowers.PowerOf32` | upstream/libz/libz/crc32.h:9439-9446 | x^(2^32) is x again modulo the CRC polynomial |
| `CrcPowers.PowerWraps` | upstream/libz/libz/crc32.c:180-184 | So the wrapped index k & 31 is right for every k |
| `CrcPowers.X2nModP` | upstream/libz/libz/crc32.c:176-187 | x^(n 2^k) for all non-negative n and all k |
| `CrcPowers.EndsUnlessNegative` | upstream/libz/libz/crc32.c:176-187 | The halving of n comes to zero, and the loop ends, exactly for n that is not negative |
| `CrcBytes.CrcCat` | upstream/libz/libz/crc32.c:694-1012 | Cutting the input across calls does not matter |
| `CrcBytes.CombineIs` | upstream/libz/libz/crc32.c:1021-1027 | The CRC of a whole from the CRCs of its parts |
| `CrcBytes.Combine` | upstream/libz/libz/crc32.c:1021-1027 | crc32_combine64 of two CRCs is the CRC of the concatenation, for every non-negative length |
| `CrcBytes.CrcWord` | upstream/libz/libz/crc32.c:676-681 | A word at a time equals a byte at a time |
| `CrcBytes.MakeBraidEntry` | upstream/libz/libz/crc32.c:528-540 | The braid tables hold each byte's contribution a block later |
| `CrcBytes.BraidWord` | upstream/libz/libz/crc32.c:799-834 | A word looked up in the braid tables is its CRC carried over the rest of the block |
| `CrcBytes.AddBlocks` | upstream/libz/libz/crc32.c:756-857 | The braided loop over any number of blocks equals the byte loop |
| `CrcBytes.Crc32Z` | upstream/libz/libz/crc32.c:694-1012 | For every alignment, length and starting value: the byte-at-a-time CRC |
| `CrcResidue.Residue` | upstream/libz/libz/crc32.c:694-1012 | From any start, the CRC of data followed by its own CRC, low byte first, is 0x2144df1c |
| `CrcResidue.ZeroByte` | upstream/libz/libz/crc32.c:694-1012 | The CRC of one zero byte is 0xd202ef8d |
| `CrcResidue.LeadingZero` | upstream/libz/libz/crc32.c:694-1012 | A zero byte put before any data always changes its CRC |
| `CrcResidue.OneByteChanged` | upstream/libz/libz/crc32.c:694-1012 | Changing any one byte of any data always changes its CRC |
| `AsyncInvariant.RunInv` | libiw4x/libiw4x/gdk/async.cxx:119-392 | The inductive invariant of slots, free list, tokens and calls holds in every state of every interleaving |
| `AsyncRuns.HoldCount` | libiw4x/libiw4x/gdk/async.cxx:211-392 | A live slot's hold count is one if un-retired, plus one per guard, plus one per queued or running held callback (counting one being handed over) |
| `AsyncRuns.DisposedAtZero` | libiw4x/libiw4x/gdk/async.cxx:246-323 | Disposal is under way exactly when the holds of a published slot have reached zero |
| `AsyncRuns.NoDangling` | libiw4x/libiw4x/gdk/async.cxx:211-392 | Whoever still works on a slot finds it live under its own token and off the free list |
| `AsyncRuns.Partition` | libiw4x/libiw4x/gdk/async.cxx:119-165 | Every slot below `used` is exactly one of live, on the free list once, or in one call's hands |
| `AsyncRuns.PackedRun` | libiw4x/libiw4x/gdk/async.cxx:37-58 | Every step changes a slot's packed word as one atomic operation: unchanged, one hold more or less, zero to a new token with one hold, or to zero with none left; below 2^48 tokens and 65536 holds it fits 64 bits and both parts read back |
| `AsyncRuns.TokenNeverReturns` | libiw4x/libiw4x/gdk/async.cxx:119-165 | A token a slot has lost never comes back to it |
| `AsyncRuns.TokenOfOneSlot` | libiw4x/libiw4x/gdk/async.cxx:119-165 | A token is only ever one slot's |
| `AsyncRuns.StaleCookie` | libiw4x/libiw4x/gdk/async.cxx:211-243 | A block whose operation is gone never resolves again, whatever occupies its slot |
| `AsyncRuns.ResolvesToOwn` | libiw4x/libiw4x/gdk/async.cxx:211-243 | A block that resolves does so to the slot its token was issued for, off the free list |
| `AsyncRuns.FirstFinishWins` | libiw4x/libiw4x/gdk/async.cxx:411-438 | Status and size never change after the first finish until the slot is reacquired |
| `AsyncRuns.WrittenAndAnnouncedOnce` | libiw4x/libiw4x/gdk/async.cxx:394-438 | They are written once and no more when completed, and the completion routine is called at most once; what is written is stated by `AsyncOutcomes.CompletedWith`, that it is called by `AsyncProgress.AnnouncedOnce` |
| `AsyncOutcomes.CompletedWith` | libiw4x/libiw4x/gdk/async.cxx:411-494 | At the step where an operation completes, its status and size are those its finishing call brought at an earlier step: the arguments of Complete, what the work came to (a size only with success), or E_ABORT and 0 for a cancel or canceled task; if its block has a completion routine, that call goes on to submit it |
| `AsyncOutcomes.CallReturns` | libiw4x/libiw4x/gdk/async.cxx:698-794 | When a Cancel or Complete has returned, the operation it found is completed, and retired by Cancel, or its slot has gone to another |
| `AsyncOutcomes.PerformReturns` | libiw4x/libiw4x/gdk/async.cxx:442-468 | When a local task has run, its operation is completed |
| `AsyncProgress.NotForgotten` | libiw4x/libiw4x/gdk/async.cxx:325-392 | A local operation that is neither completed nor retired always has a call or task on its way that will complete it, retire it or submit the task that does |
| `AsyncProgress.AnnouncedOnce` | libiw4x/libiw4x/gdk/async.cxx:394-438 | From the step an operation with a completion routine completes, exactly one call of the routine is made or on its way, as long as it is not retired and no queue refuses |
| `AsyncProgress.ScheduleReturns` | libiw4x/libiw4x/gdk/async.cxx:754-775 | A Schedule that has returned has submitted its work or been refused by the queue |
| `AsyncRuns.CleanedUp` | libiw4x/libiw4x/gdk/async.cxx:287-323 | Back on the free list, a provider has had cleanup exactly once if and only if its begin did not fail; twice if it failed |
| `AsyncRuns.CleanedTwice` | libiw4x/libiw4x/gdk/async.cxx:740-748 | A run on which a provider whose begin fails gets cleanup twice |
| `TaskPort.Port.Submit` | libiw4x/libiw4x/gdk/task-queue.cxx:86-118 | Appends to the ring unless terminated or full; an immediate port runs the callback instead |
| `TaskPort.Port.Due` | libiw4x/libiw4x/gdk/task-queue.cxx:120-148 | Finds a callback exactly when the ring is not empty and the port terminated or some callback due, and brings the first such one to the head, exchanged with the head |
| `TaskPort.Port.Earliest` | libiw4x/libiw4x/gdk/task-queue.cxx:150-166 | The least due time in the ring |
| `TaskPort.Port.Take` | libiw4x/libiw4x/gdk/task-queue.cxx:168-196 | One pass of dispatch takes a callback exactly when one is due or the port terminated, takes the first such one, and leaves the others, the head in its place |
| `TaskPort.Port.Terminate` | libiw4x/libiw4x/gdk/task-queue.cxx:231-244 | Terminates; cancels unless manual |
| `TaskPort.Port.Stop` | libiw4x/libiw4x/gdk/task-queue.cxx:246-265 | Ends, and with the ring empty: everything left is taken once, in ring order |
| `PortRuns.AcceptedLeavesOnce` | libiw4x/libiw4x/gdk/task-queue.cxx:86-265 | On every interleaving each accepted callback has left exactly once or is still in the ring |
| `PortRuns.ZeroDelayInOrder` | libiw4x/libiw4x/gdk/task-queue.cxx:86-265 | On every interleaving callbacks without delay leave in submission order, despite the swap in due |
| `PortRuns.NeverEarly` | libiw4x/libiw4x/gdk/task-queue.cxx:86-265 | On every interleaving no callback leaves the ring before it is due unless the port is terminated |
| `PortRuns.DispatchTakes` | libiw4x/libiw4x/gdk/task-queue.cxx:120-196 | On every interleaving a dispatch with a due callback in the ring, or on a terminated port, gives out one more callback, the first due one; otherwise it changes nothing |
| `PortRuns.DueLeave` | libiw4x/libiw4x/gdk/task-queue.cxx:120-196 | Once all callbacks are due, as many dispatches as there are empty the ring, also without termination |
| `PortRuns.Drains` | libiw4x/libiw4x/gdk/task-queue.cxx:246-265 | Once terminated, whatever else happens, as many dispatches as there are callbacks empty the ring in order |
| `PortRuns.ImmediateRunsAll` | libiw4x/libiw4x/gdk/task-queue.cxx:91-95 | An immediate port queues nothing and runs every callback as submitted |
| `PortRuns.Play` | libiw4x/libiw4x/gdk/task-queue.cxx:86-265 | The ring itself, driven by any events, is what the history of the run says |
| `PortRuns.PlayAndStop` | libiw4x/libiw4x/gdk/task-queue.cxx:246-265 | stop on the ring gives out what any dispatches after its first part would |
| `QueuePool.Pool.TakePort` | libiw4x/libiw4x/gdk/task-queue.cxx:353-367 | The first free port, and the count |
| `QueuePool.Pool.GivePort` | libiw4x/libiw4x/gdk/task-queue.cxx:370-380 | A port back, and the count |
| `QueuePool.Pool.TakeQueue` | libiw4x/libiw4x/gdk/task-queue.cxx:335-350 | The first free queue, and the count |
| `QueuePool.Pool.CreateQueue` | libiw4x/libiw4x/gdk/task-queue.cxx:476-517 | Two free ports become the queue's own; it fails exactly when ports or queues run out, and then leaves the pool unchanged |
| `QueuePool.Pool.CreateComposite` | libiw4x/libiw4x/gdk/task-queue.cxx:519-545 | Borrows the ports; fails only for want of a queue, and then leaves the pool unchanged |
| `QueuePool.Pool.LetGoOf` | libiw4x/libiw4x/gdk/task-queue.cxx:406-452 | Ports left without owner and borrower, and only these, are set apart once each |
| `QueuePool.Pool.Return` | libiw4x/libiw4x/gdk/task-queue.cxx:454-464 | A stopped port goes back |
| `QueuePool.SpentIsLast` | libiw4x/libiw4x/gdk/task-queue.cxx:396-402 | A port is spent exactly when no live queue refers to it any more |
| `PoolRuns.CountsRight` | libiw4x/libiw4x/gdk/task-queue.cxx:335-546 | On every run owners and borrows are those of the live queues, and a port is in use exactly when held or being stopped |
| `PoolRuns.StoppedAndReturnedOnce` | libiw4x/libiw4x/gdk/task-queue.cxx:406-464 | On every run a port is stopped once and returned once each time it is opened, in that order |
| `PoolRuns.StoppedAtLastRelease` | libiw4x/libiw4x/gdk/task-queue.cxx:406-464 | On every run a port is stopped exactly at the step that takes its last owner or borrower away |
| `PoolRuns.DoCreate` | libiw4x/libiw4x/gdk/task-queue.cxx:476-517 | The pool's own create is a step of those runs |
| `PoolRuns.DoComposite` | libiw4x/libiw4x/gdk/task-queue.cxx:519-545 | and so is the composite create |
| `PoolRuns.DoRelease` | libiw4x/libiw4x/gdk/task-queue.cxx:406-452 | and the first part of a release, which stops what the log says |
| `PoolRuns.DoReturn` | libiw4x/libiw4x/gdk/task-queue.cxx:454-464 | and the return of a port |

## Findings

Where the code and what is said about it differ, the model follows the code.

| member | what was found |
|---|---|
| `AsyncRuns.CleanedTwice`, `AsyncRuns.CleanedUp` | A provider whose begin call fails gets an explicit cleanup (async.cxx:746) and a second one from disposal (async.cxx:312). Cleanup is called exactly once if and only if begin did not fail. |
| `FastEntry.EightBitsHeld`, `Inflate.Inflater.Go`, `InflateFast.InflateFast` | inffast.c:23-29 assumes fewer than 8 bits on entry. A first call on FB FF FF FF FF FF FF returns in LEN with 8 bits held, so the next call can enter with 8. This happens only at the start of a call that resumes in LEN, never after another case, and never with more than 14 bits. The result is proved for that case too. |
| `CrcBytes.Combine` | The table index in x2nmodp wraps at 32 for long second parts. This is right, because x^(2^32) is x modulo the CRC polynomial. |
| `TreeLimits.LimitedNotOptimal`, `TreeCodes.BuildTree` | trees.c:529-537 and 616-624 call the lengths optimal. For frequencies 1, 1, 2, 4, ... 128 no code of at most 7 bits is, and likewise at 15. The lengths are optimal whenever they did not have to be limited, in particular for fewer than Fib(max + 3) occurrences. |
| `CrcPowers.EndsUnlessNegative` | crc32_combine64 takes a signed length; for a negative one the loop of x2nmodp (crc32.c:180) never ends, as n >> 1 stays at -1. It ends if and only if the length is not negative. |
| `CodeRuns.NotFewest`, `CodeRuns.TreeTerse` | The run-length symbols of send_tree (trees.c:751-792) are greedy and not always the fewest: nine equal lengths of 1 are sent as 1, repeat 6, 1, 1 where 1, repeat 5, repeat 3 would do. Runs of three zeros and of four equal lengths are never sent plainly. |
| `Adler.Adler32` | A start that is not reduced, which a caller can pass, stays congruent; for one single byte it can come out not reduced, exactly when the second sum reaches twice the base. |

## Assumptions

- async.cxx: reading a block's cookie words and the compare-and-swap on the slot's word are one step, and no lookup falls
  between the final decrement (line 249) and the store of zero (line 321), where a hold count of zero would be accepted.
- async.cxx: a result is taken and an operation is canceled only after the begin call that created it has returned; a
  provider is scheduled only while it is there; steps are sequentially consistent.
- async.cxx: tokens stay below 2^48 and concurrent holds below 65536. The protocol is proved on unbounded numbers;
  `AsyncRuns.PackedRun` shows that under these bounds the packed word carries both.
- task-queue.cxx: each lock section is one step, the clock never goes back, and composite queues are built from ports of
  live queues or from ports outside the pool.
- inflate.c: a 32K window, Z_NO_FLUSH, raw or zlib streams. A stream comes to bad data where a code needs more table
  entries than ENOUGH_LENS or ENOUGH_DISTS reserve; that no legal code does rests on a search outside the repository.

## Left out

- gzip headers and trailers, preset dictionaries (a zlib stream that asks for one stops in a state that only waits),
  inflatePrime, inflateSync around syncsearch, Z_BLOCK and Z_TREES.
- deflate_stored, deflate_rle, deflate_huff, deflateParams, and flush modes other than finishing.
- TreeCodes.BuildTree: that limited lengths are never optimal is proved for the frequencies named above only. opt_len and
  static_len are unbounded where the source has an unsigned long.
- CrcPowers.X2nModP: takes no negative length, for which the source does not end (`CrcPowers.EndsUnlessNegative`).
- CrcBytes.Combine: takes no negative length, likewise.
- The early returns of deflate_fast and deflate_slow for want of output space are left open, so every pattern is covered.
- Compress.Compress: takes all input at once; blocks are cut where the symbol buffer is full and anywhere else, and whether
  their bytes are still in the window is left open. detect_data_type, which chooses nothing, is not modelled.
- Matcher.Finder.FillWindow: reads what fits in one pass of the loop, and does not clear bytes beyond the input (high_water).
- codes[] of the inflate state is two arrays, one for each table, and the fixed tables are two arrays; pending_buf and
  sym_buf are separate.
- Masks, shifts and ORs of disjoint bits are arithmetic on natural numbers; unrolled loops are byte loops.
- The CRC code is modelled for N = 5 braids of 8-byte little-endian words; big-endian, 4-byte and ARM variants are not.
- AsyncProgress.AnnouncedOnce: says nothing once the operation is retired, since announce then finds no block.
- AsyncProgress.NotForgotten: that a queue runs the task it took, and when, is not part of the protocol's steps.
- async.cxx: what get_status, get_result_size and get_result hand to their callers; the model records that they hold the
  slot and what they retire.
- TaskPort.Port.Take: the waiting, timeouts, worker threads and condition variables around dispatch are not modelled.
- Memory ordering of atomics, allocation failure, and the operations and providers themselves.
- The rest of the repository: file I/O, infback, service shims, hooks, logging and libcurl.
