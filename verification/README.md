# Sentinel verification

Sentinel confines a program to the system calls that its compiler pass has recorded. The pass writes the recorded
sites into an ELF section, a loader turns them into kernel maps, and a kernel program checks every call against
them. The repository also carries the BusyBox applets that serve as its benchmark. This project models the
parts of both with the most state and arithmetic, in Dafny, and proves what they promise.

- **gzip** (`Bits`, `BitWriter`, `CanonicalCode`, `Tokens`, `TreeRle`, `Huffman*`, `Tree*`, `Length*`, `Block*`,
  `SlidingWindow`, `Chains`, `Matcher`, `Deflate`, `Gzip` and their helpers). The compressor is modelled in place:
  bit accumulator, output buffer, heap array shared by live and finished nodes, tree fields shared by fathers and
  lengths, window, hash chains, token log. Against it stands a decoder written from RFC 1951 and RFC 1952 alone
  (`Inflate`, `Gzip.Gunzip`). The main theorem, `Gzip.Zip`, says that decompression gives back what was read, for
  every input and every split into reads. Beside it: codes are the canonical ones, and optimal whenever an
  optimal code keeps to the limit on lengths; the overflow repair hands out its lengths in the cheapest way; the
  sizes that choose among encodings are exact, and what is sent is at most 17 bits longer than the shortest of the
  three encodings.
- **Sentinel itself** (`SectionDump`, `VmaTrie`, `Enforcer`, `LoadedVerdicts`, `CallGraph`, `CallGraphBfs`,
  `CallGraphTrace`, `LittleEndian`): pass and inspector agree on the section; addresses resolve to modules; the
  verdict of the enforcer on every address is that of the policies as loaded, however often they are reloaded; it is
  exactly known when it depends on where modules lie; the search of the call graph is sound and complete up to its
  limits.
- **factor** (`Divisors`, `Wheel`, `Factor`): the printed list is the prime factorization.
- **dpkg** (`VersionOrder`, `NameTable`): versions are ordered by a total preorder as in section 5.6.12 of the
  Debian Policy Manual; the name table interns.
- **expr** (`ExprValues`, `Expr`, `ExprTrees`, `ExprComparison`): parsing and evaluating in one pass means what
  the expression tree means, in both directions.
- **lzop** (`Adler32`): delayed reduction computes the Adler-32 checksum.

Where code and its own descriptions differ, the model follows the code:

- flush_block promises the best encoding. `BlockChoice.ShortestSent` says exactly when it is the shortest and bounds
  the excess; `BlockChoice.StoredTooLong` is an input for which it is not.
- build_tree promises optimal lengths. They are optimal exactly if some optimal code keeps to the limit
  (`HuffmanDepth.ShortestExactly`), which fails for Fibonacci numbers (`HuffmanCutOff.FibonacciCutOff`).
- version_compare promises -1, 0 or 1. `VersionOrder.UnitResult` says exactly when this holds;
  `VersionOrder.TwoBelow` is a case where it does not.
- Caller ranges are keyed by offset alone, sites of the dynamic linker by their offset from libc, and callers are
  counted from the base of the site's module. So the verdict can depend on where modules lie, for sites of the linker
  and for callers in another module: `LoadedVerdicts.Placement` says exactly when it does,
  `LoadedVerdicts.OwnCallerFree` and `ForeignFree` what rules it out beforehand, and `PlacementMatters`,
  `LinkerCallerMoves` and `ForeignCallerMoves` are cases where it does.
- The symbol lookup can miss a symbol that contains the address if sizes overlap (`CallGraph.FindMisses`);
  `CallGraph.FindWhich` says which one it gives.
- The search of the name table has no end in a full table without the name (`NameTable.NeverEnds`).
- expr promises comparison as texts unless both sides are numbers. The side that is a number is spelled anew
  before; `ExprComparison.TextComparison` says exactly when this makes no difference.
- The inspector narrows recorded numbers to an int (`SectionDump.NrRoundTrip`), and its commas are right exactly
  under the condition of `SectionDump.CommasExact`; `SectionDump.TrailingBytes` is a family of sections that
  fails it.
- The loop in build_bl_tree would settle for three codes if all after them were unused, though send_all_trees needs
  four; `BlockTrees.FourOrMore` proves that one of those is always used.

Bytes are integers from 0 to 255. Words that wrap around do so explicitly, by a remainder. Errors that end a
program are values. Every `.dfy` file holds one module; `dfyconfig.toml` lists them for
`dafny verify dfyconfig.toml`.

## Model

| member | source | states |
|---|---|---|
| `Gzip.Zip` | benchmarks/busybox-1.36.1/archival/gzip.c:2064-2103 | for every input, every way in which reads split it, every checksum rule and every permitted buffer and window size, the reference reader of the gzip format (Inflate and Gunzip, written from RFC 1951 and RFC 1952) gets back from the bytes written exactly the bytes read; these are a prefix of the input, and all of it unless a read failed |
| `Gzip.ReadBack` | benchmarks/busybox-1.36.1/archival/gzip.c:2064-2103 | a header, any complete deflate stream, zero bits up to the next byte, and the checksum and size of its output are read back as that output; the reader looks for the trailer at the byte boundary behind the last block and accepts nothing after it |
| `Gzip.StreamBytes` | benchmarks/busybox-1.36.1/archival/gzip.c:2093-2103 | behind the header there are no more bytes than the bits of the stream need, so that less than a byte is padding |
| `Gzip.PutHeader` | benchmarks/busybox-1.36.1/archival/gzip.c:2070-2091 | the ten bytes written are a header without optional fields, at either compression level |
| `Gzip.PutTrailer` | benchmarks/busybox-1.36.1/archival/gzip.c:2098-2102 | all that is pending is written, followed by the complemented checksum and the size, four bytes each |
| `Gzip.Prepare` | benchmarks/busybox-1.36.1/archival/gzip.c:2080-2082 | the tables, trees and the filled window with which compression can start |
| `Deflate.Deflater.Run` | benchmarks/busybox-1.36.1/archival/gzip.c:1810-1912 | whatever the input and however reads split it, the bits sent are blocks of tokens of which every distance is from 1 to MAX_DIST and reaches back into the input, the tokens expand to exactly the bytes read, the bits decompress to them whatever follows, and the last byte is completed with zeros |
| `Deflate.Deflater.Round` | benchmarks/busybox-1.36.1/archival/gzip.c:1819-1899 | one turn of lazy matching records exactly this: the previous match if it has three bytes and the length found now does not beat it, else the byte before as a literal if there is one waiting; blocks sent plus tokens recorded expand to exactly the bytes passed, with distances from 1 to MAX_DIST, the deferred match is a true match, and the lookahead shrinks |
| `Deflate.Deflater.FindMatch` | benchmarks/busybox-1.36.1/archival/gzip.c:1820-1850 | inserts the string and returns the length that walking the chain gives, cut off at the lookahead, with too distant matches of three bytes ignored; if it beats the previous one, match_start and the length describe a true match of the input, whatever slides have happened |
| `Deflate.Deflater.TakeMatch` | benchmarks/busybox-1.36.1/archival/gzip.c:1851-1878 | taking the previous match extends what the tokens stand for by exactly its bytes and inserts all strings it skips |
| `Deflate.Deflater.SkipMatch` | benchmarks/busybox-1.36.1/archival/gzip.c:1858-1871 | every string inside the match enters the dictionary |
| `Deflate.Deflater.TakeLiteral` | benchmarks/busybox-1.36.1/archival/gzip.c:1879-1890 | the byte before strstart becomes a literal, so that the tokens stand for one byte more |
| `Deflate.Deflater.Flush` | benchmarks/busybox-1.36.1/archival/gzip.c:1788-1795 | the block ends at strstart; what was sent now decodes to everything up to there |
| `Deflate.Deflater.Finish` | benchmarks/busybox-1.36.1/archival/gzip.c:1908-1911 | the last block makes the stream complete |
| `Deflate.Deflater.Refill` | benchmarks/busybox-1.36.1/archival/gzip.c:1901-1906 | reading and sliding between turns changes nothing but the origin of the window |
| `Deflate.NewMatch` | benchmarks/busybox-1.36.1/archival/gzip.c:1838-1849 | the modular distance computed from match_start is at most MAX_DIST and is the distance of a true match in the input |
| `Emission.ChosenOut` | benchmarks/busybox-1.36.1/archival/gzip.c:1680-1766 | whichever of the three encodings is chosen, the block stands for the same bytes |
| `Matcher.LongestMatch` | benchmarks/busybox-1.36.1/archival/gzip.c:710-784 | the result is either nothing longer than prev_length, or a true match of the returned length, at most 258, at a distance of at most MAX_DIST; and no string on the walk along the chain agrees in more bytes, unless the walk was ended for a match of nice_match bytes |
| `Matcher.TryCandidate` | benchmarks/busybox-1.36.1/archival/gzip.c:742-771 | the early rejections and the comparison together tell whether a candidate beats the best length, and by how much |
| `Matcher.MatchLength` | benchmarks/busybox-1.36.1/archival/gzip.c:758-770 | the unrolled comparison returns the number of equal bytes, at most 258, and stops at the first difference |
| `Matcher.ThreeSame` | benchmarks/busybox-1.36.1/archival/gzip.c:745-757 | two equal bytes and equal hash keys make three equal bytes, which justifies that the third is not compared |
| `Hashing.HashForgets` | benchmarks/busybox-1.36.1/archival/gzip.c:1768-1774 | the rolling key depends on the last three bytes only |
| `Hashing.ThirdByte` | benchmarks/busybox-1.36.1/archival/gzip.c:366-370 | for equal first two bytes the key determines the third byte |
| `Chains.Inserted` | benchmarks/busybox-1.36.1/archival/gzip.c:1797-1808 | inserting a string keeps the invariant that every link leads to an earlier string with the same key |
| `Chains.ChainsMoved` | benchmarks/busybox-1.36.1/archival/gzip.c:661-677 | sliding the window, the heads and the links by one window size keeps that invariant |
| `Chains.BytesRead` | benchmarks/busybox-1.36.1/archival/gzip.c:680-688 | bytes read behind those that keys were computed from do not disturb the chains |
| `SlidingWindow.Window.FillWindow` | benchmarks/busybox-1.36.1/archival/gzip.c:641-689 | the window keeps holding the most recent input, the chains stay sound, positions move by the window size or not at all, and bytes arrive or the end is noted |
| `SlidingWindow.Window.FillIfNeeded` | benchmarks/busybox-1.36.1/archival/gzip.c:691-695 | there is enough lookahead afterwards unless the input has ended |
| `SlidingWindow.Window.Slide` | benchmarks/busybox-1.36.1/archival/gzip.c:655-679 | moving the upper half down keeps window, chains and hash key; match_start wraps modulo 2^32 |
| `SlidingWindow.Window.ReadMore` | benchmarks/busybox-1.36.1/archival/gzip.c:680-688 | either some bytes arrive behind the lookahead or the end of the input is noted |
| `SlidingWindow.Window.InsertString` | benchmarks/busybox-1.36.1/archival/gzip.c:1797-1808 | the string becomes the head of its chain and is linked to the head before, which is returned and is an earlier string with the same key, or none; nothing else changes |
| `SlidingWindow.Window.Init` | benchmarks/busybox-1.36.1/archival/gzip.c:1927-1961 | an empty dictionary, a first filled window and a primed hash key |
| `SlidingWindow.Source.Read` | benchmarks/busybox-1.36.1/archival/gzip.c:522-535 | any number of bytes up to the size asked for, none at the end or on failure, with checksum and size brought up to date |
| `BitWriter.Writer.constructor` | benchmarks/busybox-1.36.1/archival/gzip.c:1917-1922 | an empty stream |
| `BitWriter.Writer.FlushOutbuf` | benchmarks/busybox-1.36.1/archival/gzip.c:425-432 | bytes pass from the buffer to the output in order |
| `BitWriter.Writer.Put8` | benchmarks/busybox-1.36.1/archival/gzip.c:437-442 | one byte is appended; the buffer never overruns |
| `BitWriter.Writer.Put16` | benchmarks/busybox-1.36.1/archival/gzip.c:445-481 | two bytes, low first, on the fast and on the slow path and across a flush |
| `BitWriter.Writer.Put32` | benchmarks/busybox-1.36.1/archival/gzip.c:484-499 | four bytes, low first, on either path |
| `BitWriter.Writer.SendBits` | benchmarks/busybox-1.36.1/archival/gzip.c:541-574 | exactly the bits of the value are appended, least significant first, whether or not they cross the word; the accumulator stays below 2^bi_valid |
| `BitWriter.Writer.SendCode` | benchmarks/busybox-1.36.1/archival/gzip.c:1075-1080 | the canonical code word of the symbol is appended |
| `BitWriter.Writer.BiWindup` | benchmarks/busybox-1.36.1/archival/gzip.c:596-609 | the stream is completed with zero bits to a whole byte |
| `BitWriter.Writer.CopyBlock` | benchmarks/busybox-1.36.1/archival/gzip.c:615-631 | alignment, optionally length and complement, then the bytes |
| `BitWriter.OrShifted` | benchmarks/busybox-1.36.1/archival/gzip.c:552-555 | or-ing a shifted value into the 32-bit accumulator is addition modulo 2^32 |
| `BitWriter.SpillBits` | benchmarks/busybox-1.36.1/archival/gzip.c:552-573 | a value sent across the word boundary fills the word and leaves exactly its high bits |
| `CanonicalCode.GenCodes` | benchmarks/busybox-1.36.1/archival/gzip.c:1254-1288 | for any lengths with a Kraft sum of at most 1, every symbol gets the reversed canonical code of section 3.2.2 of RFC 1951 and nothing else changes |
| `CanonicalCode.NextCodes` | benchmarks/busybox-1.36.1/archival/gzip.c:1262-1267 | the first code of each length, as that section computes it |
| `CanonicalCode.BiReverse` | benchmarks/busybox-1.36.1/archival/gzip.c:581-591 | the bits of the result, least significant first, are those of the code, most significant first |
| `CanonicalCode.PrefixFree` | benchmarks/busybox-1.36.1/archival/gzip.c:1254-1288 | no code word is a prefix of another one |
| `CanonicalCode.CodesUsed` | benchmarks/busybox-1.36.1/archival/gzip.c:1262-1272 | the codes of lengths up to b use up exactly the Kraft sum, which is why codes fit their lengths |
| `CanonicalCode.CodeWordDecodes` | benchmarks/busybox-1.36.1/archival/gzip.c:1254-1288 | the reference decoder finds the symbol of every code word, whatever bits follow |
| `Tokens.TokensDecode` | benchmarks/busybox-1.36.1/archival/gzip.c:1630-1673 | the bits of any tokens decode to the effect of the tokens |
| `Tokens.DataDecodes` | benchmarks/busybox-1.36.1/archival/gzip.c:1630-1673 | the data of a block, end mark included, decodes to the bytes that its tokens expand to |
| `TreeRle.ScanTree` | benchmarks/busybox-1.36.1/archival/gzip.c:1402-1448 | adds to the frequencies exactly the symbols that send_tree will emit for these lengths, and places the guard |
| `TreeRle.SendTree` | benchmarks/busybox-1.36.1/archival/gzip.c:1454-1505 | emits exactly the bits of those symbols |
| `TreeRle.RleExpands` | benchmarks/busybox-1.36.1/archival/gzip.c:1402-1505 | expanding the symbols by section 3.2.7 of RFC 1951 gives back any length vector; every repeat count fits its extra bits, and there are no more symbols than lengths |
| `TreeRle.OpsDecode` | benchmarks/busybox-1.36.1/archival/gzip.c:1454-1505 | the reference decoder reads the symbols back from their bits |
| `HuffmanHeap.PqDownHeap` | benchmarks/busybox-1.36.1/archival/gzip.c:1127-1149 | a heap below start becomes a heap from start on, by rearranging the same nodes |
| `HuffmanHeap.RootSmallest` | benchmarks/busybox-1.36.1/archival/gzip.c:1117-1149 | the root of a heap may stay above every other node |
| `TreeInit.FillHeap` | benchmarks/busybox-1.36.1/archival/gzip.c:1321-1335 | the heap array holds exactly the used symbols, max_code is the last of them, unused ones get length 0 |
| `TreeInit.ForceTwoCodes` | benchmarks/busybox-1.36.1/archival/gzip.c:1337-1352 | at least two symbols, the forced ones unused before and small; the sizes are reduced by what the forced codes will cost |
| `TreeInit.Heapify` | benchmarks/busybox-1.36.1/archival/gzip.c:1354-1358 | any array of nodes becomes a heap of the same nodes |
| `TreeMerge.RemoveSmallest` | benchmarks/busybox-1.36.1/archival/gzip.c:1305-1310 | takes a node off the heap that is least frequent and lowest among those |
| `TreeMerge.MergeTwo` | benchmarks/busybox-1.36.1/archival/gzip.c:1363-1383 | joins the two least frequent live nodes, the lowest among equals, under a new father whose height is recorded, and keeps the merge invariant |
| `TreeMerge.RegionsApart` | benchmarks/busybox-1.36.1/archival/gzip.c:1363-1385 | the live heap and the nodes already taken off it, which share an array, never meet |
| `HuffmanBuild.MergeAll` | benchmarks/busybox-1.36.1/archival/gzip.c:1360-1385 | greedy merging ends in one complete tree whose nodes are listed above heap_max, each father before its sons |
| `HuffmanBuild.BuildTree` | benchmarks/busybox-1.36.1/archival/gzip.c:1312-1394 | every used symbol gets a code no longer than the limit and no shorter than that of a more frequent one, the Kraft sum is exactly 1, codes are canonical, opt_len and static_len grow by exactly the bits the symbols take modulo 2^32, and no lengths of a prefix code, however long, take fewer bits unless the greedy tree, in which lower trees are merged first, is deeper than the limit |
| `HuffmanDepth.ShortestExactly` | benchmarks/busybox-1.36.1/archival/gzip.c:1290-1297 | the lengths that build_tree sets are optimal if and only if some optimal prefix code has no word above the limit |
| `HuffmanDepth.LightIsShortest` | benchmarks/busybox-1.36.1/archival/gzip.c:1290-1297 | they are optimal whenever the frequencies add up to less than the Fibonacci number of the limit plus 3, which is 2584 for 15 bits and 55 for 7 |
| `HuffmanCutOff.FibonacciCutOff` | benchmarks/busybox-1.36.1/archival/gzip.c:1290-1297 | they are not optimal when the frequencies are the Fibonacci numbers, two more of them than the limit |
| `HuffmanHeight.HeightIsLeast` | benchmarks/busybox-1.36.1/archival/gzip.c:1120-1124 | merging the lower of equally frequent trees first minimizes the worst case length: every prefix code of least cost has a word at least as long as the tree is high |
| `HuffmanHeight.NoLower` | benchmarks/busybox-1.36.1/archival/gzip.c:1120-1124 | the same at every stage of merging, for the live nodes with their heights |
| `HuffmanHeight.HeightWeight` | benchmarks/busybox-1.36.1/archival/gzip.c:1363-1383 | a tree of height h weighs at least the Fibonacci number h + 2 |
| `HuffmanHeight.HeightFits` | benchmarks/busybox-1.36.1/archival/gzip.c:1372-1372 | hence the byte that counts the height never overflows |
| `HuffmanOptimal.HuffmanIsOptimal` | benchmarks/busybox-1.36.1/archival/gzip.c:1312-1394 | the lengths of a greedy tree that was not cut off cost no more than any lengths with a Kraft sum of at most 1 |
| `HuffmanOptimal.LightestDeepest` | benchmarks/busybox-1.36.1/archival/gzip.c:1312-1394 | some code at least as good gives the two least frequent nodes the greatest length, so that they can be joined |
| `HuffmanBuild.HuffmanShortest` | benchmarks/busybox-1.36.1/archival/gzip.c:1312-1394 | the same for the frequencies and lengths in the arrays |
| `PrefixCodes.Kraft` | benchmarks/busybox-1.36.1/archival/gzip.c:1312-1394 | every prefix code, given as bit strings, has a Kraft sum of at most 1 |
| `PrefixCodes.ShortestOfAllCodes` | benchmarks/busybox-1.36.1/archival/gzip.c:1312-1394 | hence the result is shortest among all prefix codes, not only among length vectors |
| `BitLengths.PassReads` | benchmarks/busybox-1.36.1/archival/gzip.c:1178-1203 | the node about to be visited still holds its father, which already holds its length: the shared field is never read after it was overwritten |
| `BitLengths.OverflowKraft` | benchmarks/busybox-1.36.1/archival/gzip.c:1177-1203 | the cut off lengths have a Kraft sum that exceeds 1 by one share for each inner node at the limit, and more leaves than that sit there |
| `GenBitlen.FirstPass` | benchmarks/busybox-1.36.1/archival/gzip.c:1169-1203 | lengths cut off at the limit, counted in bl_count, with exact sizes, and twice the number of inner nodes at the limit as overflow |
| `LengthRepair.RepairOverflow` | benchmarks/busybox-1.36.1/archival/gzip.c:1210-1222 | terminates without driving a count below zero, keeps the number of leaves, and ends with a Kraft sum of exactly 1 |
| `LengthRepair.SomeLeafAbove` | benchmarks/busybox-1.36.1/archival/gzip.c:1212-1214 | the search for a shorter length always finds one |
| `LengthReassign.ReassignLengths` | benchmarks/busybox-1.36.1/archival/gzip.c:1224-1243 | every leaf gets one of the counted lengths, none is left over, lengths never fall along the scan, and opt_len follows |
| `LengthRank.VisitsLighter` | benchmarks/busybox-1.36.1/archival/gzip.c:1224-1235 | the scan meets the nodes in increasing frequency |
| `LengthRank.RarerLonger` | benchmarks/busybox-1.36.1/archival/gzip.c:1224-1243 | hence after the repair no leaf has a shorter code than a more frequent one |
| `HuffmanOptimal.LighterDeeper` | benchmarks/busybox-1.36.1/archival/gzip.c:1176-1203 | the same when nothing was cut off |
| `CheapestLengths.RankedCheapest` | benchmarks/busybox-1.36.1/archival/gzip.c:1224-1243 | lengths in such an order cost no more than the same lengths handed out in any other way |
| `CheapestLengths.CheapestForCounts` | benchmarks/busybox-1.36.1/archival/gzip.c:1161-1244 | so build_tree hands out the lengths that bl_count counts in the cheapest way, repaired or not |
| `TreeBuilder.GenerateLengths` | benchmarks/busybox-1.36.1/archival/gzip.c:1161-1244 | lengths within the limit, Kraft sum exactly 1, counts and sizes exact; either nothing was cut off or the tree is too deep |
| `Tables.InitLengths` | benchmarks/busybox-1.36.1/archival/gzip.c:1983-1996 | the length tables agree with the code ranges of section 3.2.5 of RFC 1951 for every length |
| `Tables.InitDists` | benchmarks/busybox-1.36.1/archival/gzip.c:1998-2014 | the distance tables agree with them for every distance up to 32768, through the split at 256 |
| `StaticTrees.InitStaticLiterals` | benchmarks/busybox-1.36.1/archival/gzip.c:2016-2048 | the static tree is the fixed code of section 3.2.6 of RFC 1951 |
| `StaticTrees.InitStaticDistances` | benchmarks/busybox-1.36.1/archival/gzip.c:2050-2054 | the fixed distance code |
| `TokenLog.LoggedMore` | benchmarks/busybox-1.36.1/archival/gzip.c:1575-1600 | recording a token in the three buffers with packed flags keeps the log of all tokens |
| `TokenLog.ReadToken` | benchmarks/busybox-1.36.1/archival/gzip.c:1641-1670 | reading the log back yields the tokens in order |
| `BlockCoder.Coder.constructor` | benchmarks/busybox-1.36.1/archival/gzip.c:1969-2058 | tables, static trees and empty counts for any permitted buffer sizes |
| `BlockCoder.Coder.InitBlock` | benchmarks/busybox-1.36.1/archival/gzip.c:1095-1112 | no tokens, all frequencies zero but that of the end of block |
| `BlockCoder.Coder.Tally` | benchmarks/busybox-1.36.1/archival/gzip.c:1573-1625 | the token is logged and counted; a flush is asked for exactly when a buffer is full or ending the block early looks profitable, and otherwise there is room for another token |
| `BlockCoder.Coder.FlushBlock` | benchmarks/busybox-1.36.1/archival/gzip.c:1680-1766 | the bits sent are those of the encoding of the recorded tokens that the rule of the code picks: stored if its bytes and four more are no more than those of the others, else static unless the dynamic block has fewer bytes; a new block begins |
| `BlockCoder.Coder.SendChosen` | benchmarks/busybox-1.36.1/archival/gzip.c:1702-1753 | the encoding is picked by the true sizes and sent whole |
| `BlockChoice.ShortestSent` | benchmarks/busybox-1.36.1/archival/gzip.c:1675-1753 | what is sent is the shortest of the three if and only if the sizes and the position allow it, and otherwise longer by at most 10 bits and the alignment if stored, 7 bits if static, none if dynamic |
| `BlockChoice.StoredTooLong` | benchmarks/busybox-1.36.1/archival/gzip.c:1675-1753 | a case where it is not: the fifteen bytes from 0x90 on are stored in 155 bits and alignment, though the static block takes 145 |
| `BlockChoice.DynamicAtLeast` | benchmarks/busybox-1.36.1/archival/gzip.c:1702-1730 | any dynamic block for these bytes takes at least 148 bits behind its header |
| `BlockSender.CompressBlock` | benchmarks/busybox-1.36.1/archival/gzip.c:1630-1673 | the bits of all logged tokens and of the end mark |
| `BlockSender.SendLength` | benchmarks/busybox-1.36.1/archival/gzip.c:1649-1656 | code and extra bits of a length |
| `BlockSender.SendDistance` | benchmarks/busybox-1.36.1/archival/gzip.c:1657-1667 | code and extra bits of a distance |
| `BlockSender.SendAllTrees` | benchmarks/busybox-1.36.1/archival/gzip.c:1545-1567 | counts, bit length codes in their order and the two coded trees |
| `BlockTrees.BuildDataTrees` | benchmarks/busybox-1.36.1/archival/gzip.c:1687-1695 | after the two trees both sizes are exactly those of the data |
| `BlockTrees.BuildBlTree` | benchmarks/busybox-1.36.1/archival/gzip.c:1511-1538 | opt_len and static_len equal exactly the number of bits, less the block header, that the dynamic and the static choice emit |
| `BlockTrees.LastToSend` | benchmarks/busybox-1.36.1/archival/gzip.c:1525-1532 | the codes left off are unused, the last one sent is used, and there are at least four |
| `BlockTrees.FourOrMore` | benchmarks/busybox-1.36.1/archival/gzip.c:1525-1532 | a used symbol means that one of the codes after the first three is used, so the downward loop stops in time |
| `BlockTrees.OwnDataSize` | benchmarks/busybox-1.36.1/archival/gzip.c:1161-1244 | opt_len after the data trees is the length of the data under them, and far from wrapping |
| `BlockTrees.FixedDataSize` | benchmarks/busybox-1.36.1/archival/gzip.c:1161-1244 | static_len is the length of the data under the fixed code |
| `BlockTrees.TreesSize` | benchmarks/busybox-1.36.1/archival/gzip.c:1511-1538 | opt_len grows by the length of the coded trees |
| `BlockCost.DataSize` | benchmarks/busybox-1.36.1/archival/gzip.c:1630-1673 | the bits of tokens add up to frequencies times code and extra lengths |
| `DynamicBlock.DynamicDecodes` | benchmarks/busybox-1.36.1/archival/gzip.c:1545-1567 | a dynamic block decodes to the bytes of its tokens |
| `Blocks.BlockDecodes` | benchmarks/busybox-1.36.1/archival/gzip.c:1680-1766 | a block of any kind, wherever it starts, decodes to its bytes |
| `SectionDump.Dump` | src/runtime/sentinel_dump.c:60-139 | on arbitrary bytes the walk terminates, reads only inside the section and prints the entries of the readable units |
| `SectionDump.SectionRoundTrip` | src/compiler/SentinelPass.cpp:297-355 | for every list of translation units the concatenated sections are dumped as all their entries in order, with a comma after each but the last |
| `SectionDump.PassRoundTrip` | src/compiler/SentinelPass.cpp:297-355 | every site that the pass captured comes back with its address and number, and a unit without sites as one null entry |
| `SectionDump.NrRoundTrip` | src/runtime/sentinel_dump.c:95-98 | a number survives if and only if it is below 2^31, since the inspector narrows it to an int |
| `SectionDump.CommasExact` | src/runtime/sentinel_dump.c:60-139 | on any bytes the printed list is well formed if and only if it is empty or the unit that holds its last entry ends the section |
| `SectionDump.TrailingBytes` | src/runtime/sentinel_dump.c:60-139 | a family where it is not: any units with entries and a few bytes behind them |
| `SectionDump.OneByteMore` | src/runtime/sentinel_dump.c:60-139 | the smallest case: one entry and a zero byte |
| `LittleEndian.SwappedBits` | src/runtime/loader.c:862-869 | the swapped address lies in memory so that a prefix trie reads it from its top bit |
| `VmaTrie.FindHull` | src/runtime/loader.c:843-858 | the tight hull of the mappings |
| `VmaTrie.Populate` | src/runtime/loader.c:833-875 | exactly the 1 MB blocks of the hull lead to the module |
| `VmaTrie.ResolveIsGet` | src/kernel/sentinel.bpf.c:198-201 | longest-prefix lookup in a trie so filled is lookup of the block |
| `VmaTrie.ModulesResolve` | src/runtime/loader.c:833-875 | for modules in separate blocks every mapped address resolves to its module |
| `VmaTrie.ResolvesToLast` | src/runtime/loader.c:833-875 | whatever modules share blocks, an address resolves to the last loaded of those that have its block |
| `VmaTrie.NothingElseResolves` | src/runtime/loader.c:833-875 | exactly the addresses outside the blocks of all modules resolve to nothing |
| `Enforcer.OutcomeShape` | src/kernel/sentinel.bpf.c:155-284 | a denial leaves one event and, unless permissive, a signal; anything else leaves no signal and no event unless auditing |
| `Enforcer.SiteVerdict` | src/kernel/sentinel.bpf.c:155-284 | a call from a resolved site is not denied if and only if the offset has a rule, the rule admits the number and a range for the offset contains the caller |
| `Enforcer.OutsideDenied` | src/kernel/sentinel.bpf.c:198-208 | whatever modules are loaded, every call in scope from outside their blocks is denied |
| `Enforcer.LoadRules` | src/runtime/loader.c:1332-1350 | the map written is that of the rules in order, a later one winning |
| `Enforcer.LoadRanges` | src/runtime/loader.c:1822-1859 | the same for caller ranges |
| `Enforcer.MainVerdict` | src/kernel/sentinel.bpf.c:155-284 | the verdict on a call from the main binary is that of its policy on link-time addresses, wherever it is loaded |
| `Enforcer.BaseIndependent` | src/kernel/sentinel.bpf.c:155-284 | two runs at different bases give the same verdict on a call from the main binary by a caller in it |
| `Enforcer.LoadedMainVerdict` | src/runtime/loader.c:833-875 | the same composed with address resolution |
| `Enforcer.HotReload` | src/runtime/loader.c:1900-1922 | a reload overrides the offsets it mentions, adds new ones, and drops none |
| `Enforcer.ReloadsJoin` | src/runtime/loader.c:1900-1922 | any number of reloads, each with its own load base, amounts to one load of all rules in order, rebased |
| `Enforcer.AddMissing` | src/runtime/loader.c:1592-1603 | wildcards are added only where there is no rule yet, and counted |
| `LoadedVerdicts.BuildRegistry` | src/runtime/loader.c:1332-1790 | the policies of the main binary, libc with the dynamic linker, and every other library, each under its module number |
| `LoadedVerdicts.AddressVerdict` | src/kernel/sentinel.bpf.c:155-284 | on the maps that the loader builds, with modules sharing 1 MB blocks or not, a call from any address with a caller at any address is not denied if and only if the module loaded last of those that have the block has a rule there that admits the number, and the caller range at that offset, if there is one, contains the caller |
| `LoadedVerdicts.Verdict` | src/kernel/sentinel.bpf.c:155-284 | the same for a call from a mapped address of the main binary, libc, the dynamic linker or a library, by the rules of that module alone; libc and the linker may share blocks |
| `LoadedVerdicts.Placement` | src/kernel/sentinel.bpf.c:244-270 | for a site and a caller given as link-time addresses of any modules, two placements of a program give the same verdict if and only if no rule admits the call anyway, or both placements admit the caller or neither does, by its distance from the recorded base and the range at the offset of the site |
| `LoadedVerdicts.OwnCallerFree` | src/kernel/sentinel.bpf.c:244-270 | hence the verdict does not depend on where modules lie for sites outside the linker that have no range, and for callers in the module of the site or not found |
| `LoadedVerdicts.ForeignRefused` | src/kernel/sentinel.bpf.c:244-270 | all addresses outside the module of the site are refused as callers if and only if there is a range and it ends within the module |
| `LoadedVerdicts.ForeignFree` | src/kernel/sentinel.bpf.c:244-270 | hence calls by other modules are denied in every placement if the range ends within the module of the site |
| `LoadedVerdicts.ForeignCallerMoves` | src/kernel/sentinel.bpf.c:244-270 | a case where places matter: a call in libc by the main binary is not denied with the main binary in one place and denied with it in another |
| `LoadedVerdicts.LinkerAlways` | src/runtime/loader.c:1592-1637 | an address of the dynamic linker may make any call from anywhere if and only if it is one of its sites and no caller range has its offset from libc |
| `LoadedVerdicts.LinkerCallerMoves` | src/runtime/loader.c:1592-1637 | a site of the linker that has the same range in two placements, and a caller in the linker that only one of them admits |
| `LoadedVerdicts.PlacementMatters` | src/runtime/loader.c:1592-1637 | a site of the linker that has a range in one placement only: the same call is denied there and not in the other |
| `CallGraph.FindSymAtAddr` | src/runtime/loader.c:501-522 | binary search with its fallback computes the lookup |
| `CallGraph.FindSound` | src/runtime/loader.c:501-522 | a symbol found contains the address |
| `CallGraph.FindWhich` | src/runtime/loader.c:501-522 | which symbol a sorted table gives, overlaps or not: the first that contains the address on the path of the binary search to the last symbol not above it; the fallback helps only behind a symbol of no size |
| `CallGraph.FindNone` | src/runtime/loader.c:501-522 | below all symbols nothing is found |
| `CallGraph.FindMisses` | src/runtime/loader.c:501-522 | an address inside a symbol that is not found, because two short symbols lie on the path |
| `CallGraph.FindExact` | src/runtime/loader.c:501-522 | without overlaps it finds the one that contains it |
| `CallGraph.SiteInScan` | src/runtime/loader.c:367-406 | a site in a function body is one that the scan of the whole text finds |
| `CallGraphBfs.SeedAll` | src/runtime/loader.c:661-728 | the queue starts with distinct seeds, all of them while there is room |
| `CallGraphBfs.ScanBody` | src/runtime/loader.c:745-767 | targets of calls and jumps in a body are queued once |
| `CallGraphBfs.Search` | src/runtime/loader.c:642-770 | no symbol is visited twice, only symbols reachable from a seed are visited, and all symbols within the depth limit are, unless the queue ran full |
| `CallGraphBfs.CollectSites` | src/runtime/loader.c:772-784 | the sites are in reached bodies and in the full scan; without a cap none is missing |
| `CallGraphTrace.FindSymByName` | src/runtime/loader.c:525-532 | the first symbol of the name, or none if there is none |
| `CallGraphTrace.TraceCallgraph` | src/runtime/loader.c:642-790 | every site returned is a system call in a function that can be reached from an import, an essential name or a variant of an import; unless a cap was met, every system call in a function within 24 calls of one is returned |
| `Wheel.UnpackWheel` | benchmarks/busybox-1.36.1/coreutils/factor.c:99-121 | unpacking yields what was packed |
| `Wheel.TableOk` | benchmarks/busybox-1.36.1/coreutils/factor.c:57-121 | the candidates are 2, 3, 5, 7, 11 and then, from 13 on, a turn of 2310 whose increments skip only multiples of these |
| `Factor.BetweenCandidates` | benchmarks/busybox-1.36.1/coreutils/factor.c:203-212 | on every turn each number between two candidates has a divisor that was tried before |
| `Factor.WheelTurns` | benchmarks/busybox-1.36.1/coreutils/factor.c:205-212 | the next candidate is again on the wheel, also where a turn ends |
| `Factor.FactorizeNumber` | benchmarks/busybox-1.36.1/coreutils/factor.c:138-218 | for every number below 2^64 the printed list is nondecreasing, all prime, with the number as product |
| `Factor.Factorizer.Factorize` | benchmarks/busybox-1.36.1/coreutils/factor.c:162-218 | what was printed, and the rest to the power of square_count, keep the number as product; at the end all is printed |
| `Factor.Factorizer.TryDivisors` | benchmarks/busybox-1.36.1/coreutils/factor.c:188-216 | the loop along the wheel, with its overflow break, leaves a prime |
| `Factor.Factorizer.DivideOut` | benchmarks/busybox-1.36.1/coreutils/factor.c:196-202 | divides by the smallest divisor as often as possible |
| `Factor.Factorizer.IsqrtOdd` | benchmarks/busybox-1.36.1/coreutils/factor.c:138-160 | the largest odd number up to the root, or the whole factorization of a square |
| `Factor.Isqrt` | benchmarks/busybox-1.36.1/libbb/isqrt.c:20-36 | for every number below 2^64 the loop over pairs of bits gives the integer square root, below 2^32, without overflow |
| `Factor.Factorizer.Print` | benchmarks/busybox-1.36.1/coreutils/factor.c:124-130 | a factor is printed square_count times |
| `Factor.CountBound` | benchmarks/busybox-1.36.1/coreutils/factor.c:148-151 | square_count cannot overflow its byte |
| `VersionOrder.CompareParts` | benchmarks/busybox-1.36.1/archival/dpkg.c:240-277 | the sign of the result is that of comparing keys, orders of non-digits and values of numbers in turn, and the number is that of the characters, digits or lengths that decide |
| `VersionOrder.CompareRuns` | benchmarks/busybox-1.36.1/archival/dpkg.c:248-255 | runs of non-digits decide, by the difference of the orders of the first two that differ, or end together |
| `VersionOrder.CompareNumbers` | benchmarks/busybox-1.36.1/archival/dpkg.c:257-274 | numbers of any length are compared by value; the result is 1 or -1 for different lengths, else the difference of the first digits that differ |
| `VersionOrder.Compare` | benchmarks/busybox-1.36.1/archival/dpkg.c:283-334 | the sign is that of comparing epoch, upstream version and revision in this order, and the number is that of what decides |
| `VersionOrder.UnitResult` | benchmarks/busybox-1.36.1/archival/dpkg.c:279-282 | it is -1, 0 or 1 if and only if what decides are neighbouring characters or digits, the number of digits or the epochs, or nothing does |
| `VersionOrder.TwoBelow` | benchmarks/busybox-1.36.1/archival/dpkg.c:279-282 | a case where it is not: a against c gives -2 |
| `VersionOrder.Reflexive` | benchmarks/busybox-1.36.1/archival/dpkg.c:240-334 | a version is level with itself |
| `VersionOrder.Antisymmetric` | benchmarks/busybox-1.36.1/archival/dpkg.c:240-334 | exchanging the versions reverses the sign |
| `VersionOrder.Transitive` | benchmarks/busybox-1.36.1/archival/dpkg.c:240-334 | the order is transitive, and level only if both steps are |
| `VersionOrder.TildeFirst` | benchmarks/busybox-1.36.1/archival/dpkg.c:229-277 | a version with a tilde and anything appended comes before the version itself |
| `VersionOrder.NumbersByValue` | benchmarks/busybox-1.36.1/archival/dpkg.c:257-274 | two numbers alone compare by value, whatever zeros lead them |
| `VersionOrder.TestVersion` | benchmarks/busybox-1.36.1/archival/dpkg.c:336-354 | each relation holds exactly as its name says |
| `NameTable.MakeHash` | benchmarks/busybox-1.36.1/archival/dpkg.c:169-186 | start and step of the probe, within 0 and 1 to prime less 1 |
| `NameTable.HashPrime` | benchmarks/busybox-1.36.1/archival/dpkg.c:85-88 | 16381 is prime |
| `NameTable.NoZeroProduct` | benchmarks/busybox-1.36.1/archival/dpkg.c:189-206 | a prime divides no product of two smaller positive numbers |
| `NameTable.ProbesDiffer` | benchmarks/busybox-1.36.1/archival/dpkg.c:195-203 | a search tries no slot twice before it has tried all |
| `NameTable.SearchEnds` | benchmarks/busybox-1.36.1/archival/dpkg.c:195-203 | a search ends while some slot is free or holds the name |
| `NameTable.NeverEnds` | benchmarks/busybox-1.36.1/archival/dpkg.c:195-203 | a search goes on for ever if and only if the table is full and does not hold the name |
| `NameTable.StoreKeeps` | benchmarks/busybox-1.36.1/archival/dpkg.c:204-205 | storing a name where its search ended keeps every name findable and unique |
| `NameTable.Names.Search` | benchmarks/busybox-1.36.1/archival/dpkg.c:189-206 | the index of the name if it is there, else of a free slot that now holds it; no other slot changes |
| `NameTable.Names.SearchAll` | benchmarks/busybox-1.36.1/archival/dpkg.c:189-206 | over any run of searches equal names get equal indices, different names different ones, and old indices stay good |
| `NameTable.RoomForAnother` | benchmarks/busybox-1.36.1/archival/dpkg.c:189-206 | there is room as long as the distinct names are no more than the slots |
| `Expr.Evaluator.EvalLevel` | benchmarks/busybox-1.36.1/coreutils/expr.c:403-537 | the six levels of binary operators: the value and cursor that the level function gives |
| `Expr.Evaluator.EvalFactor` | benchmarks/busybox-1.36.1/coreutils/expr.c:338-401 | the keywords |
| `Expr.Evaluator.EvalPrimary` | benchmarks/busybox-1.36.1/coreutils/expr.c:317-336 | operands and parentheses |
| `Expr.ExprMain` | benchmarks/busybox-1.36.1/coreutils/expr.c:539-559 | the line printed and the exit status, or an error |
| `ExprTrees.PrintedEvaluates` | benchmarks/busybox-1.36.1/coreutils/expr.c:317-537 | every tree, printed with the parentheses it needs, is evaluated to what it means, with left association, consuming exactly its arguments; evaluation stops exactly when the tree has no meaning, whatever the machine makes of results beyond 64 bits |
| `ExprTrees.EvaluatedIsPrinted` | benchmarks/busybox-1.36.1/coreutils/expr.c:317-537 | whatever arguments are accepted are those of some tree, and the outcome is what it means |
| `ExprTrees.PrintedOutcome` | benchmarks/busybox-1.36.1/coreutils/expr.c:539-559 | the printed line and exit status of a printed tree, whatever the machine makes of results beyond 64 bits |
| `ExprTrees.CodeApplies` | benchmarks/busybox-1.36.1/coreutils/expr.c:205-266 | adding up two characters tells the operators of each level apart |
| `ExprValues.ToStringBack` | benchmarks/busybox-1.36.1/coreutils/expr.c:175-202 | an integer turned into a string and back is the same integer |
| `ExprValues.QuotientRemainder` | benchmarks/busybox-1.36.1/coreutils/expr.c:245-266 | division rounds towards zero and the remainder belongs to it |
| `ExprValues.QuotientFits` | benchmarks/busybox-1.36.1/coreutils/expr.c:258-266 | the quotient of two 64-bit numbers fits unless it is that of the least number and -1, for which C leaves the remainder undefined too |
| `ExprComparison.TextComparison` | benchmarks/busybox-1.36.1/coreutils/expr.c:217-242 | a number compares with every text as the arguments themselves would if and only if it is spelled as expr would print it |
| `ExprComparison.Respelled` | benchmarks/busybox-1.36.1/coreutils/expr.c:217-242 | a case where it does not: 010 and 01x |
| `Adler32.LzoAdler32` | benchmarks/busybox-1.36.1/archival/lzop.c:510-537 | the checksum continued over the buffer is that of section 2.2 of RFC 1950, with its reduction at every byte; 1 without a buffer |
| `Adler32.AddChunk` | benchmarks/busybox-1.36.1/archival/lzop.c:526-532 | no addition wraps around in a chunk of up to 5552 bytes, from any 16-bit sums |
| `Adler32.Continued` | benchmarks/busybox-1.36.1/archival/lzop.c:510-537 | continuing over a second buffer gives the checksum of both together |
| `Adler32.PackedBack` | benchmarks/busybox-1.36.1/archival/lzop.c:519-536 | unpacking undoes packing for reduced sums |
| `Adler32.ClosedForm` | benchmarks/busybox-1.36.1/archival/lzop.c:510-537 | from 1 the two sums are one plus all bytes, and the length plus all bytes weighted by distance from the end |

## Left out

- Gzip.Zip: the checksum is an arbitrary fold over the bytes, because crc32_block_endian0 is not part of this model; time stamp and name fields are never written by the code either.
- SlidingWindow.Window.constructor: the window has 258 bytes of slack at its end instead of reading into the memory behind it, and head and prev are two arrays instead of halves of one.
- SlidingWindow.Window.ReadMore: the case of a 16-bit unsigned difference of -1 is not modelled, because the integers of the code are wider.
- BitWriter.Writer.FlushOutbuf: a failing write ends the program and is not modelled.
- HuffmanBuild.BuildTree: when no optimal code keeps to the limit, nothing is claimed about how far the lengths are from the best ones within it, which the code does not promise.
- VmaTrie.Populate: mappings end below the last 1 MB block of the address space, where the loop of the code would wrap around; the names in /proc maps lines are taken as already matched.
- Enforcer.SiteVerdict: kernel maps are finite maps with enough room; process identities, stack walks and registers are inputs; timestamps and the ring buffer are not modelled.
- CallGraphTrace.TraceCallgraph: the symbol table and the executable sections are given; reading them from the ELF file, with its bounds of 8192 symbols, 16 sections and 127 characters, is not modelled, and addresses plus sizes are taken not to exceed 2^64.
- LoadedVerdicts.Verdict: modules other than libc and the linker lie in separate 1 MB blocks, while LoadedVerdicts.AddressVerdict covers shared ones; the mappings of libc and the linker do not overlap; sites of libc and the linker lie in their own mappings; the lists of sites that scans and symbol lookups find, and the policy maps of 4096 entries, are inputs with enough room.
- SectionDump.Dump: the text around the rows and the names of system calls are not modelled.
- VersionOrder.Compare: atoi is modelled modulo 2^32, though C leaves its overflow undefined.
- NameTable.MakeHash: characters are taken as 0 to 255 and the product of character and index does not overflow; for ASCII names this is what the code computes.
- NameTable.Names.Search: the package and status tables of dpkg, which probe in the same way with other primes and comparisons, are not modelled.
- Expr.Evaluator.EvalLevel: values are datatypes passed along instead of structs changed in place; eval to eval5 are one method with the level as parameter.
- ExprTrees.PrintedEvaluates: pattern matching is an arbitrary function that may fail; what becomes of results beyond 64 bits and of the remainder of the least number by -1, which C leaves undefined, is an arbitrary function too.
- Adler32.LzoAdler32: the CRC-32 of lzop is not modelled.
- LZO compression, header plumbing of lzop, dpkg installation, other applets, evaluation scripts and the LLVM side of the pass would add file effects and tables, not harder properties.
- DEBUG tracing, option parsing and process control are not modelled.
