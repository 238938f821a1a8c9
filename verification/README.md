# Tuxlet OS: models and proofs

Tuxlet OS is a small x86-64 kernel with its own filesystem, page allocator, virtual memory and
package manager. This project models its hardest components in Dafny and proves what they are for.

| modules | source | in short |
|---|---|---|
| `Spaces`, `Sights`, `Frames`, `Vm` | src/kernel/vm.c, the memory files of src/kernel/syscall.c | copy-on-write address spaces refine spaces that simply copy; counts are exact |
| `Chains`, `Share`, `ShareRuns` | src/kernel/share.c | three kinds of chain through one entry array are one map of counted pages |
| `Names`, `Probing`, `IndexLaws`, `FsIndex` | src/kernel/fs.c | the open-addressing index finds what a scan of the table finds |
| `Extents`, `FsData` | src/kernel/fs.c | first fit, and a write as an edit of one byte sequence |
| `SectorCache` | src/kernel/fs.c | cached sectors are the disk's |
| `Paths`, `PathLaws` | src/kernel/fs.c | resolution ends, at a normal path through no link, where links and parts say |
| `Bits`, `Huffman`, `Window`, `Deflate`, `DeflateLaws`, `Inflate`, `Gunzip` | src/tuxpac/unpack.c | unpacking is sound and complete for RFC 1951 |
| `RangeCoder`, `LzmaSpec`, `Lzma` | src/tuxpac/unpack.c | LZMA2 chunks unpack to what they stand for; bounds of the range coder, the tables and the window |
| `RangeWriter`, `LzmaCode`, `SymbolCode` | src/tuxpac/unpack.c | what is written as LZMA symbols is read as them |
| `PageRuns`, `PageList` | src/kernel/mem.c | runs and loose pages are one set of free pages |
| `Pairs` | src/kernel/syscall.c | one buffer refines a queue of messages or a stream with descriptors in it |
| `Versions`, `Resolver` | src/tuxpac/tuxpac.c | version order is an order; the plan is closed under dependencies |

`Deflate` is the format itself: blocks, the bits they are written in, and the bytes they stand for.
`LzmaSpec` is LZMA2 as functions: the symbol that stands next, and what symbols and chunks stand for.
Tables and steps that a format and its reader share are held by laws of their own: `DeflateLaws` and
`PathLaws`, and for LZMA a writer (`RangeWriter`, `LzmaCode`, `SymbolCode`) whose output the reader reads.
Code that changes state is a class or a method with loops; each is proved against a function or a
relation on values, and the lemmas are about those. Where the source waits for memory, a disk or a
sink, the answer is a parameter or is left open. `dafny verify dfyconfig.toml` checks everything.
Every lemma has automatic induction switched off, so a proof by induction is written out.

## What the proofs found

- `fs_write_at` computes the end of a write in 32 bits (src/kernel/fs.c:1343-1360). Past 2^32 too little
  is allocated and the data goes to sectors that are not the file's; from 2^31 on the entry becomes a
  link (src/kernel/fs.h:34). `FsData.Volume.WriteAt` says that a write edits the file, and nothing else,
  if and only if it ends below 2^31 and the allocator's sums do not wrap (`Extents.SumsWrap`);
  `FsData.FarWriteWipes` is an input that loses another file.
- A gap run may end past the recorded data end without raising it (src/kernel/fs.c:664-667); a later
  run can then overlap the file. `Extents.BelowMoved` says exactly when, in terms of the layout before
  the call, and `Extents.GapPastDataEnd` gives the layout, both runs chosen, and the overlap.
- `mem_pages_below` does not look at what `run_take` answers (src/kernel/mem.c:288-290). With a full list
  the first page taken may send the rest of its run to the chain of free pages, and the block is handed
  out while all but its first page stay free. `PageList.Doubled` is the exact condition,
  `PageList.FullListDoubles` an input.
- The resolver takes a dependency for answered when the package it found for it has the name of one
  planned or installed, whichever version that is (src/tuxpac/tuxpac.c:983-990). `Resolver.NamesakeSlips`
  is an index for which a plan is returned that lacks what a package needs. An installed package counts
  as an answer even where the plan replaces it (`Resolver.ReplacedLeans`). `Resolver.NoneLost` is the exact
  condition under which neither costs anything.
- A send on a full stream pair is refused after its descriptors were queued (src/kernel/syscall.c:5247-5256),
  and the caller then closes them (src/modules/ipc/unix.c:435-440). They are let go of and handed out
  later as well, and a retry queues them again, so "once" is said of the batches queued
  (`Pairs.Pipe.PutStream`, `Pairs.Pipe.RefusedSend`).
- The test for pages overlapped by a write misses pages where an end wraps at 2^32
  (`ShareRuns.OverlapsExactly`); such a page goes on being given out as it was before the write
  (`Vm.MissedWrite`).
- A failed growth of the index leaves an entry without a record; it is then in `lost`, and a find may
  miss it until the next growth. Should failures repeat until the live entries outnumber the records of
  the doubled index, the loop that rebuilds it does not end, and otherwise it does
  (`FsIndex.OverfullNeverEnds`, `FsIndex.FailingTable`, `FsIndex.FileTable.IndexGrow`).
- A rename whose new name has no folder fails only after dropping the entry that was there.
- A folder removed under a name with its slash is removed even if it is not empty.
- `direct` takes the code out of the range when the range is odd and the code its last value
  (`RangeCoder.HalfKeeps`, `RangeCoder.HalfEscapes`); the LZMA specification's decoder treats that as
  corrupt input. Nothing else does (`LzmaSpec.EscapedIs`, `Lzma.Decoder.Chunk`).
- A stored LZMA2 chunk that resets the dictionary leaves the state, so a later literal looks at a byte
  from before the reset exactly when the last distance reaches there (`Lzma.Decoder.Literal`,
  `Lzma.Decoder.ShortReset`); it is still in the window.
- A full list of runs, all below 1 GiB, loses pages when a run below 1 GiB is freed
  (`PageList.NoRoom`); splitting one run of such a list does too.
- With 128 alternatives or more a rank of the resolver does not fit its 8 bits and a line that suits is
  taken for none (`Resolver.RankFound`).
- The comment above `fs_write_at` says that a gap reads as whatever was there; the code zeroes it, and
  the model follows the code.
- In `take` the branch for a run that straddles 1 GiB cannot be reached and is not modelled.

## Model

| member | source | states |
|---|---|---|
| Spaces.RunIsolates | src/kernel/vm.c:481-895 | over a run of any length, a space in whose name nothing is done has exactly the pages it had before |
| Spaces.NextIsolates | src/kernel/vm.c:481-895 | one event of any kind leaves every other space's pages as they were |
| Spaces.ForkCopies | src/kernel/vm.c:843-895 | after a fork parent and child have the same at every page, the child nothing else, and the parent what it had |
| Spaces.StoreLands | src/kernel/vm.c:481-543 | after a store the byte read there is the one stored and every other byte is what it was, or zero where there was no page; a window stays the window it was and a device is left alone |
| Spaces.WindowStore | src/kernel/vm.c:555-569 | a store through a window makes no copy and is read through every window on that memory and in its memory file; all other memory is as it was |
| Spaces.FileStore | src/kernel/syscall.c:679-716 | so is a write to the memory file itself |
| Spaces.WindowStays | src/kernel/vm.c:555-569 | over a run of any length a window that no fault, release, device or exit takes away stays the window it was |
| Spaces.ForkShares | src/kernel/vm.c:843-895 | memory shared on purpose stays shared through a fork: in any run after it a store by parent or child is read by both and in the memory file |
| Vm.Kernel.Run | src/kernel/vm.c:481-895 | any run of the machine with page tables, counts and copy-on-write is a run of the machine that simply copies; and every space in whose name the run does nothing sees at its end exactly what it saw at its start |
| Vm.Kernel.Do | src/kernel/vm.c:481-895 | the same for one event, done or refused; with memory to be had it is done wherever it makes sense and there are frames enough for its tables and pages, and a discard takes exactly the private pages |
| Vm.ReferenceCounts | src/kernel/share.c:112-207 | in every reachable state a tracked frame's count is the number of shared entries for it in all spaces plus the memory files that hold it, and is not zero |
| Vm.PrivateFrames | src/kernel/vm.c:494-540 | a frame behind an entry that is neither shared nor a device's is behind no other entry |
| Vm.SharedWritable | src/kernel/vm.c:555-569 | in every reachable state a shared entry lets stores through exactly if its frame is shared on purpose |
| Vm.FramesConserved | src/kernel/vm.c:588-771 | every frame is exactly one of: free, tracked as shared, one private page, one page table |
| Vm.Kernel.CopyOnWrite | src/kernel/vm.c:494-513 | the writer gets the bytes in a page of its own, or the frame itself when it was the last holder; no memory changes nothing |
| Vm.Kernel.Fault | src/kernel/vm.c:481-543 | a fault makes the page writable with the bytes it had, or zeroes if it was not there; a failed one changes nothing anybody sees, and with memory and three frames none fails |
| Vm.Kernel.Store | src/kernel/vm.c:481-543 | a done store lands: it is read back, the rest of the page is as before or zeroes where there was none, and what was shared on purpose stays so; with memory and three frames none fails |
| Vm.Kernel.MapFilePage | src/kernel/syscall.c:2937-2981 | a file page mapped reads as the file does on the disk, found among the shared pages or read anew |
| Vm.Kernel.ImportPage | src/kernel/syscall.c:2962-2980 | a file page read into a new frame, tracked under its file and mapped |
| Vm.Kernel.MapCommonPage | src/kernel/syscall.c:3118-3122 | memory of a memory file mapped is a window on it, which lets stores through |
| Vm.Kernel.MapDevicePage | src/kernel/vm.c:604-623 | device memory takes the place of whatever was mapped, which is given back; a failure changes nothing |
| Vm.Kernel.Release | src/kernel/vm.c:625-642 | exactly the pages of the range are gone from the space, whatever they were |
| Vm.Kernel.Discard | src/kernel/vm.c:647-662 | exactly the private pages of the range are gone; shared and device pages stay |
| Vm.Kernel.NewSpace | src/kernel/vm.c:779-791 | a new space has nothing in it |
| Vm.Kernel.ForkPage | src/kernel/vm.c:843-872 | one page of the parent's is at the same place in the child's, as writable as it is there if it is shared on purpose, or nothing changed |
| Vm.Kernel.Fork | src/kernel/vm.c:874-895 | the child has all the parent's pages, or does not exist and the parent has what it had; it does not fail with memory, a free space and a frame for its root and two for every page |
| Vm.Kernel.FreeSpace | src/kernel/vm.c:816-841 | a space freed is gone with all its pages and tables, and nobody else loses one |
| Vm.Kernel.Exit | src/kernel/vm.c:709-771 | the same for the space in use |
| Vm.Kernel.MemoryPage | src/kernel/syscall.c:679-716 | a memory file's page made on first use is zeroes |
| Vm.Kernel.MemoryClose | src/kernel/syscall.c:665-675 | a memory file let go of keeps no frame that nobody else has |
| Vm.Kernel.DiskWritten | src/kernel/share.c:209-218 | after a write to the disk that really changed only the sectors it covers, every page tracked as a file's still is what the file is if and only if no page the kernel's test misses was changed; and it is whenever no end wraps at 2^32 |
| Vm.MissedWrite | src/kernel/share.c:209-218 | a write to all seven of them changes a tracked page that stays tracked, and the invariant is gone |
| Frames.UnmapKeeps | src/kernel/vm.c:588-602 | an entry taken away keeps counts, owners and flags exact |
| Frames.AdoptKeeps | src/kernel/vm.c:843-872 | so does a private page that becomes counted at a fork |
| Frames.JoinKeeps | src/kernel/vm.c:555-569 | so does one more entry for a counted frame |
| Frames.RewriteKeeps | src/kernel/share.c:209-218 | a changed disk keeps the invariant on frames if and only if no tracked page that the test does not meet has changed |
| Share.SharedPages.Find | src/kernel/share.c:112-125 | finds a frame if and only if one is tracked for that file page, and counts the new holder |
| Share.SharedPages.Add | src/kernel/share.c:127-143 | a frame tracked for a file page with one holder |
| Share.SharedPages.Adopt | src/kernel/share.c:145-159 | a frame tracked for no file |
| Share.SharedPages.Take | src/kernel/share.c:161-179 | succeeds exactly when the count is one, and then the frame is no longer tracked |
| Share.SharedPages.Hold | src/kernel/share.c:181-188 | one holder more, if it is tracked |
| Share.SharedPages.Drop | src/kernel/share.c:190-207 | one holder less; the frame is freed exactly when that was the last |
| Share.SharedPages.Written | src/kernel/share.c:209-218 | exactly the pages the test meets lose their file; all keep their holders |
| Share.SharedPages.Grow | src/kernel/share.c:69-110 | twice the entries, every chain rebuilt, and the same pages tracked |
| Share.SharedPages.UnlinkKey | src/kernel/share.c:45-55 | takes an entry out of its key chain and leaves the other chains whole |
| Share.SharedPages.OfFrame | src/kernel/share.c:57-67 | finds the entry of a frame and the link that leads to it |
| Share.SharedPages.LinkKey | src/kernel/share.c:38-43 | puts an entry at the head of its key chain |
| ShareRuns.RunHides | src/kernel/share.c:112-218 | once hidden by a write, a file page is found by nobody until it is added again, in runs of any length |
| ShareRuns.WriteHides | src/kernel/share.c:209-218 | a write hides every file page the test meets |
| ShareRuns.OverlapsExactly | src/kernel/share.c:212-214 | the test finds exactly the pages the written sectors meet, but for those where a 32-bit end wraps |
| ShareRuns.OverlapsMisses | src/kernel/share.c:212-214 | an example of one it misses: the page of a file of the last seven sectors of a disk |
| FsIndex.FileTable.Find | src/kernel/fs.c:291-343 | returns a live entry of that name if there is one in the table, none if there is none, whatever collided or was deleted |
| FsIndex.FileTable.Lookup | src/kernel/fs.c:291-343 | with nothing lost, the entry found is the one a scan of the table finds |
| FsIndex.FileTable.Probe | src/kernel/fs.c:249-289 | every entry with the hash is a candidate, or the slow path is needed |
| FsIndex.FileTable.FindSlowly | src/kernel/fs.c:312-343 | the scan of the whole chain finds the name if it is there |
| FsIndex.Gather | src/kernel/fs.c:271-289 | one sector's matching records up to the first never used |
| FsIndex.FileTable.IndexAdd | src/kernel/fs.c:424-431 | the entry gets a record exactly when one fits or the index can grow; all that is asked is what lets a growth end |
| FsIndex.FileTable.IndexRemove | src/kernel/fs.c:433-437 | its record becomes a tombstone and every other entry is found as before |
| FsIndex.FileTable.IndexGrow | src/kernel/fs.c:345-390 | a doubled index has a record for every live entry, counted exactly; a failed growth changes nothing; it ends since the live entries are at most twice the old records, which is all it asks |
| FsIndex.OverfullNeverEnds | src/kernel/fs.c:345-390 | with more live entries than records, once every record is taken one live entry is still to be placed and the search meets no free record: the loop has nowhere to stop |
| FsIndex.FailingTable | src/kernel/fs.c:345-390 | a table with that many live entries, which fits the entries there can be |
| FsIndex.Remake | src/kernel/fs.c:345-390 | the index built anew holds exactly the live entries, without tombstones, and its count is theirs |
| FsIndex.FileTable.FreeEntry | src/kernel/fs.c:720-759 | never an entry in use; from the freed list, or a new one, and none exactly when neither can be had |
| FsIndex.FileTable.DropEntry | src/kernel/fs.c:761-772 | the entry is free, its name is gone and no other |
| FsIndex.FileTable.Format | src/kernel/fs.c:797-818 | a new filesystem has no names |
| FsIndex.FileTable.Store | src/kernel/fs.c:934-986 | exactly when it fails and why; on success the names are the old ones with this one set, on failure the old ones |
| FsIndex.FileTable.MakeFolder | src/kernel/fs.c:1066-1099 | exactly when it fails and why, a taken name with or without its slash first; on success one name more |
| FsIndex.FileTable.Remove | src/kernel/fs.c:1038-1064 | exactly which name goes, and when none does: a folder spelled without its slash goes if and only if nothing is in it |
| FsIndex.FileTable.Rename | src/kernel/fs.c:1286-1327 | exactly when it fails and why; on success the entry is under its new name in place of any other; a missing folder of the new name still costs the entry that was there |
| FsIndex.FileTable.List | src/kernel/fs.c:851-900 | the next record of the folder from the cursor on |
| FsIndex.FileTable.ListAll | src/kernel/fs.c:851-900 | a listing gives every entry directly inside the folder once and no other |
| IndexLaws.Tombstoned | src/kernel/fs.c:396-419 | a tombstone keeps every other entry reachable from its hash |
| IndexLaws.Placed | src/kernel/fs.c:396-419 | so does a record placed at the first free spot met |
| IndexLaws.SomeUnused | src/kernel/fs.c:345-390 | with at most half taken there is a never-used record |
| Probing.SpotOnce | src/kernel/fs.c:249-262 | a search meets no spot twice before it has met all |
| Probing.SpotMet | src/kernel/fs.c:249-262 | and meets every spot |
| Names.InsideIsFolder | src/kernel/fs.c:107-119 | what is directly inside a folder is what has that folder as its parent |
| Names.HashFolds | src/kernel/fs.c:92-104 | names alike but for the case of their letters have one hash |
| Extents.HopGaps | src/kernel/fs.c:669-714 | ends at the least start whose run avoids every run given, where no sum wraps |
| Extents.OverlapIs | src/kernel/fs.c:669-714 | two runs overlap exactly when they have a sector in common |
| Extents.SectorsForIs | src/kernel/fs.c:439-441 | as many sectors of 512 bytes as a size takes, and no more |
| Extents.EntryBits | src/kernel/fs.c:479-486 | the top bit of a size field says link and the others are the size |
| Extents.FirstFitOnce | src/kernel/fs.c:669-714 | there is only one such start |
| Extents.Gap | src/kernel/fs.c:669-714 | the least free run at or after the data start that avoids table, index and every other file; 0 only if none fits on the disk |
| Extents.Allocate | src/kernel/fs.c:649-667 | in place, at the data end or in the least gap, in that order, whenever the 32-bit sums do not wrap; if they do, the run ends past 2^32 |
| Extents.ChosenGiven | src/kernel/fs.c:649-667 | what is so chosen is past the header, on the disk and nobody else's, and 0 if and only if there is no such run |
| Extents.ChosenAside | src/kernel/fs.c:649-714 | a bigger run starts at or below the old one or past its end, so a file may be moved forwards |
| Extents.ChosenBelow | src/kernel/fs.c:649-667 | it ends at or before the data end recorded if and only if, before the call, the file fits in place, can extend, fits past the data end, some gap below the data end is long enough, or no run fits at all |
| Extents.SumsWrap | src/kernel/fs.c:661-664 | every count that takes the data end past 2^32 passes the test against the size of the disk |
| Extents.GapAvoidsOwn | src/kernel/fs.c:669-714 | a bigger run starts at or below the old one or past its end, so a file may be moved forwards |
| Extents.ApartMoved | src/kernel/fs.c:649-667 | no two files share a sector after one is moved |
| Extents.ApartTableMoved | src/kernel/fs.c:345-390 | neither does a table or an index once it has its new run |
| Extents.BelowMoved | src/kernel/fs.c:649-667 | nothing lies past the recorded data end after one file is moved, or a new one made, if and only if there was room in the sense of ChosenBelow |
| Extents.BelowTableMoved | src/kernel/fs.c:345-390 | the same for a table or an index |
| Extents.GapPastDataEnd | src/kernel/fs.c:664-667 | a layout with nothing past its data end where the run chosen ends past it, and the run chosen next overlaps that file |
| FsData.Volume.WriteAt | src/kernel/fs.c:1343-1441 | the file is its old bytes, zeroes up to the offset, then the data, and the rest kept, with every other file unchanged, if and only if the write ends below 2^31 and the sums of the allocator do not wrap; the disk and the entry exactly, in both cases; of the layout only the data end may change, and it and the run are what the allocator chooses; no space if and only if no run is free; nothing past the data end if and only if there was room |
| FsData.WriteEdits | src/kernel/fs.c:1343-1441 | one direction of that: the write edits one file and nothing else, and the first two sectors, the table and the index are as they were |
| FsData.WriteDoesNot | src/kernel/fs.c:1343-1441 | the other: the entry is then a link, too short, or not on the disk |
| FsData.FarWriteWipes | src/kernel/fs.c:1343-1441 | 600 bytes written at 0xFFFFFF00 into an empty file: one sector is given and another file's sector is zeroed |
| FsData.Volume.MakeRoom | src/kernel/fs.c:1360-1399 | the file's sectors are at their new place and zeroes follow |
| FsData.Volume.Store | src/kernel/fs.c:934-986 | a file or link, new or there already, is exactly the data, zeroes to the end of its last sector, and every other file is unchanged, if and only if the data is shorter than 2^31 and no sum wraps; the entry, the sectors written and the data end exactly, in both cases |
| FsData.Carry | src/kernel/fs.c:1384-1396 | moving a file in runs of 128 sectors never overwrites one that is still to be read; what lies past the disk's end is dropped |
| FsData.WriteData | src/kernel/fs.c:1404-1428 | the data, sector by sector, with what was around it kept |
| FsData.FinalByte | src/kernel/fs.c:1343-1441 | each byte of the file after both steps |
| SectorCache.Cache.Load | src/kernel/fs.c:139-154 | the sector in use is what a read of the disk would show |
| SectorCache.Cache.PutEdited | src/kernel/fs.c:158-175 | an edit written through leaves cache and disk agreeing; a failed write is forgotten |
| SectorCache.Cache.PutMany | src/kernel/fs.c:158-165 | sectors written from elsewhere are in no slot afterwards |
| SectorCache.Cache.PutScratch | src/kernel/fs.c:967-974 | a sector put together in an emptied slot and written |
| SectorCache.Cache.Scratch | src/kernel/fs.c:121-137 | the slot used longest ago is emptied |
| SectorCache.Cache.Resize | src/kernel/fs.c:774-787 | another number of slots, all empty |
| Paths.Resolve | src/kernel/fs.c:507-587 | the walk over the buffers comes to what the walk over lists of parts comes to, with the same errors; PathLaws says where that is |
| Paths.WalkIsGood | src/kernel/fs.c:507-587 | what a walk comes to has no empty, "." or ".." part, fits, and has no link among its folders, nor at its end when following |
| Paths.Advance | src/kernel/fs.c:531-582 | one part of the path in the buffers is one step of the walk |
| Paths.DropPart | src/kernel/fs.c:544-548 | ".." takes off the last part |
| Paths.FollowLink | src/kernel/fs.c:560-577 | a link's text replaces the part |
| PathLaws.LinkLeads | src/kernel/fs.c:555-577 | a path that comes to a link leads where the link's text and then the rest of the path lead: from the link's own folder if the text is relative, from the root if it is not; too long a text is invalid |
| PathLaws.LinkLoops | src/kernel/fs.c:560-566 | a link with none left to be followed is a loop |
| PathLaws.WalkAppend | src/kernel/fs.c:507-587 | a path ending in a slash and then another lead where the other leads from the folder the first leads to, with the links left, unless what a link leaves to go gets too long, which is invalid |
| PathLaws.NoLinksLead | src/kernel/fs.c:507-587 | without links a path leads to its parts if they fit, and is invalid if they do not, and leads to an entry exactly if it ends in a part of its own |
| PathLaws.TakenLaws | src/kernel/fs.c:539-548 | "." may be left out of a path, and ".." with the part before it, and above the root is the root |
| PathLaws.JoinSplits | src/kernel/fs.c:549-582 | a folder's name splits into its parts again |
| Gunzip.Unpack | src/tuxpac/unpack.c:301-336 | returns true only if the input is a gzip header and deflate blocks, and the sink was then given exactly what RFC 1951 says they stand for; and returns true on every such input unless the sink refused one of the calls made |
| Gunzip.UnpackBlocks | src/tuxpac/unpack.c:323-335 | the same from the first block on |
| Gunzip.StoredBlock | src/tuxpac/unpack.c:219-233 | a stored block, from the next whole byte on, is its bytes |
| Gunzip.FixedBlock | src/tuxpac/unpack.c:235-246 | a block in the fixed codes |
| DeflateLaws.FixedTable | src/tuxpac/unpack.c:235-246 | the lengths of the fixed codes by ranges of symbols |
| Gunzip.DynamicBlock | src/tuxpac/unpack.c:248-299 | a block with codes of its own: header, code lengths and tokens are those in the stream |
| Gunzip.ReadSteps | src/tuxpac/unpack.c:262-286 | the code lengths, with repeats and runs of zeroes |
| Gunzip.GivenLengths | src/tuxpac/unpack.c:256-258 | the lengths of the code length code in their own order |
| DeflateLaws.OrderTable | src/tuxpac/unpack.c:248-258 | the order of the code length code: 16, 17, 18, 0 and then from 8 outwards in turn |
| DeflateLaws.StepTable | src/tuxpac/unpack.c:262-286 | three to six repeats by symbol 16; runs of 3 to 10 zeroes by 17 and of 11 to 138 by 18 |
| Gunzip.SkipHeader | src/tuxpac/unpack.c:306-322 | the gzip header ends where section 2.3 of RFC 1952 says |
| DeflateLaws.HeaderRead | src/tuxpac/unpack.c:301-322 | whatever parts a header has, the blocks begin after the last of them |
| DeflateLaws.HeaderOnly | src/tuxpac/unpack.c:301-322 | what is taken for a header begins as one and ends within the input |
| Inflate.Codes | src/tuxpac/unpack.c:194-217 | the literals and matches are exactly the tokens the stream holds up to the end of the block |
| Inflate.Rest | src/tuxpac/unpack.c:206-214 | a match's length, distance and copy |
| DeflateLaws.LengthOnce | src/tuxpac/unpack.c:184-187 | every length from 3 to 258 has a symbol and extra bits, and only 258 has two |
| DeflateLaws.LengthTable | src/tuxpac/unpack.c:184-187 | each length symbol takes over where the one before it ends; the numbers of extra bits by formula |
| DeflateLaws.DistanceOnce | src/tuxpac/unpack.c:188-192 | every distance from 1 to 32768 has exactly one symbol and extra bits |
| DeflateLaws.DistanceTable | src/tuxpac/unpack.c:188-192 | the same recurrence for distances |
| DeflateLaws.SymbolOnce | src/tuxpac/unpack.c:194-217 | symbols up to 285 are the end and, once each, the bytes and the lengths |
| Huffman.Huff.Construct | src/tuxpac/unpack.c:155-182 | negative exactly when the lengths are over-subscribed, zero exactly when they are complete or there are none |
| Huffman.Huff.Decode | src/tuxpac/unpack.c:138-153 | the symbol whose code of section 3.2.2 of RFC 1951 stands next, taking exactly its bits; -1 exactly when none does |
| Huffman.PrefixFree | src/tuxpac/unpack.c:138-153 | two codes at one place are one symbol's |
| Huffman.LeftIsUnused | src/tuxpac/unpack.c:167-172 | what the loop has left is the code space the symbols leave |
| Huffman.CodeFits | src/tuxpac/unpack.c:138-182 | a code fits its length |
| Bits.Reader.Take | src/tuxpac/unpack.c:126-136 | the next bits, with fewer than eight ever held over; bad exactly when the stream ends first |
| Bits.Reader.Align | src/tuxpac/unpack.c:220 | drops only the rest of the current byte |
| Bits.Reader.NextByte | src/tuxpac/unpack.c:11-18 | the next byte, and bad for good past the last |
| Window.Output.Put | src/tuxpac/unpack.c:91-98 | sink output and window together are the whole output |
| Window.Output.Hand | src/tuxpac/unpack.c:87-98 | stopped exactly when the sink has refused one of the calls made so far |
| Window.Output.Back | src/tuxpac/unpack.c:101-103 | the byte d back in the whole output |
| Window.Output.Copy | src/tuxpac/unpack.c:105-113 | accepted exactly within the window and the last reset; each byte is the one d back, also of those just made |
| Window.CopiedOnly | src/tuxpac/unpack.c:105-113 | nothing else has that property |
| Window.Output.Close | src/tuxpac/unpack.c:82-89 | afterwards the sink has everything, or one of its calls was refused |
| RangeCoder.BitKeeps | src/tuxpac/unpack.c:363-382 | after a bit the range is at least 2^24 with one shift at most, nothing overflows, and the code stays inside the range |
| RangeCoder.LearnedLikely | src/tuxpac/unpack.c:368-376 | a probability stays between 31 and 2017 |
| RangeCoder.LearnedToward | src/tuxpac/unpack.c:363-382 | after a zero the chance moves a 32nd of the way up, after a one a 32nd down, with the rounding exact |
| RangeCoder.Parts | src/tuxpac/unpack.c:363-382 | a bit parts the range in two by its chance, the part of a zero first, and the input is in the part of the bit read |
| RangeCoder.HalfKeeps | src/tuxpac/unpack.c:405-422 | the same for bits of even chance, except that the last code of an odd range falls outside |
| RangeCoder.HalfEscapes | src/tuxpac/unpack.c:405-422 | an example of that |
| RangeWriter.Tells | src/tuxpac/unpack.c:363-422 | bits are what a reader reads, and it stays inside its range, exactly if its input is a number between the ends a writer of those bits comes to |
| RangeWriter.WrittenReads | src/tuxpac/unpack.c:355-422 | whatever bits are written by whatever chances, the bytes of the low end read as them |
| LzmaSpec.EscapedIs | src/tuxpac/unpack.c:405-422 | a run of bits of even chance is marked as escaped exactly if one of them met the last code of an odd range |
| Lzma.Decoder.Bit | src/tuxpac/unpack.c:363-382 | the bit the coder and its probability give, with every probability and the coder kept in bounds |
| Lzma.Decoder.Tree | src/tuxpac/unpack.c:384-391 | a number of n bits, with no access outside its table |
| Lzma.Decoder.ReverseTree | src/tuxpac/unpack.c:393-403 | the same with the bits reversed |
| Lzma.Decoder.Direct | src/tuxpac/unpack.c:405-422 | the n bits of even chance that stand next; the code leaves the range only if one of them met the last code of an odd range, and whether one did is exact |
| Lzma.Decoder.Length | src/tuxpac/unpack.c:424-432 | the length that stands next, at most 271; the code stays inside the range |
| LzmaCode.LengthReads | src/tuxpac/unpack.c:424-432 | each length from 2 to 273 is read from its own bits and no others |
| Lzma.Decoder.Literal | src/tuxpac/unpack.c:452-481 | puts the byte that stands next; the byte a match would have gone on with is that one of the output, in the window, and lies behind the last reset if and only if the state is at least 7 and the distance reaches behind it |
| SymbolCode.LiteralReads | src/tuxpac/unpack.c:452-481 | each byte is read from its own bits and no others, guided by the byte a match would have gone on with for as long as they agree |
| Lzma.Decoder.Distance | src/tuxpac/unpack.c:489-503 | the distance that stands next, below 2^32, with no access outside a table; the code stays inside the range unless a direct bit took it out |
| LzmaCode.SlotOnce | src/tuxpac/unpack.c:489-503 | every distance below 2^32 is in one slot and no other |
| LzmaCode.DistanceReads | src/tuxpac/unpack.c:489-503 | each distance is read from its own bits and no others |
| Lzma.Decoder.Repeat | src/tuxpac/unpack.c:506-531 | one of the last four distances moved to the front |
| Lzma.Decoder.Match | src/tuxpac/unpack.c:482-536 | an accepted match reaches neither behind the window nor behind the last reset, and is the bytes there |
| Lzma.Decoder.OneSymbol | src/tuxpac/unpack.c:447-537 | the symbol that stands next is read and played, and refused exactly when it is longer than what is left or reaches behind the window or the last reset |
| SymbolCode.SymbolReads | src/tuxpac/unpack.c:445-539 | each symbol is read from its own bits and no others |
| SymbolCode.StateSays | src/tuxpac/unpack.c:479-531 | the state is 7 or more exactly after a match |
| SymbolCode.StateTells | src/tuxpac/unpack.c:479-531 | the state is what the last four symbols were: which kind of match came last, after what, and how many literals ago |
| SymbolCode.RepSays | src/tuxpac/unpack.c:484-531 | a match's distance goes to the front of the last four and the others keep their order |
| SymbolCode.TablesApart | src/tuxpac/unpack.c:340-349 | the tables lie one after another |
| SymbolCode.NearApart | src/tuxpac/unpack.c:495-500 | the trees of the near slots' low bits lie one after another |
| SymbolCode.ContextOnce | src/tuxpac/unpack.c:452-455 | literals share chances exactly when the low bits of their places and the high bits of the bytes before them agree |
| SymbolCode.ParametersOnce | src/tuxpac/unpack.c:580-591 | a byte of parameters is (pb * 5 + lp) * 9 + lc, refused exactly when lc + lp is more than 4 |
| SymbolCode.EvenHalves | src/tuxpac/unpack.c:434-443 | with nothing read yet a zero is as likely as a one |
| SymbolCode.CountOnce | src/tuxpac/unpack.c:551-572 | a count is one more than two bytes say, the high one first |
| Lzma.Decoder.Chunk | src/tuxpac/unpack.c:445-539 | a chunk makes exactly its size, of the bytes its symbols stand for, and fails only if they stand for none or the sink refused; the code leaves the range only where a direct bit took it out |
| SymbolCode.RoundTrip | src/tuxpac/unpack.c:445-539 | whatever symbols are allowed can be written as a chunk, and the chunk reads as exactly what they stand for |
| Lzma.Decoder.StoredChunk | src/tuxpac/unpack.c:551-562 | a stored chunk puts exactly the counted bytes and is read whole if it is there; its reset forgets the dictionary and not the state |
| Lzma.Decoder.ShortReset | src/tuxpac/unpack.c:551-562 | a stored chunk that resets the dictionary and is shorter than the last distance leaves a state whose next literal looks behind the reset |
| Lzma.Decoder.CodedChunk | src/tuxpac/unpack.c:567-608 | the header's sizes, parameters and resets, the chunk, and what is left of its bytes passed over |
| Lzma.Decoder.Chunks | src/tuxpac/unpack.c:541-610 | all chunks up to the end mark unpack to what LzmaSpec says they stand for, and fail only if they stand for nothing or the sink refused; the last match can always still be looked back at |
| PageList.Free.RunAdd | src/kernel/mem.c:85-135 | every page of the span is free afterwards and the runs stay sorted and apart; pages are lost exactly when a full list and the run are all below the floor, and then those of the first smallest run; and the span goes on the chain exactly when a full list has no smaller run above the floor |
| PageList.Free.Loosen | src/kernel/mem.c:72-82 | the pages above the floor are on the chain |
| PageList.Free.RunTake | src/kernel/mem.c:138-155 | exactly that page is taken, if some run has it, and the rest of its run stays in runs exactly when the list need not chain it |
| PageList.Free.Take | src/kernel/mem.c:201-259 | the block was free and is exactly what is taken: the first loose page, or the top of the highest run long enough when one is; none means that no run is so long, and no block if draining emptied the chain |
| PageList.Free.Drain | src/kernel/mem.c:248-257 | the single pages go back into runs while there is room |
| PageList.Free.Fill | src/kernel/mem.c:209-229 | single pages off a run change nothing in what is free |
| PageList.Free.TakeRun | src/kernel/mem.c:236-246 | off the top end of the highest run that is long enough |
| PageList.Free.TakeBelow | src/kernel/mem.c:272-294 | the highest block ending at or below the limit, or none if no run has one; what is given is free no longer if and only if the list is not full, the block starts its run, is one page, or its tail is below the floor or not the smallest run |
| PageList.FullListDoubles | src/kernel/mem.c:272-294 | from a full list of runs of four pages, of two pages given below 4 GiB the second stays free |
| PageList.Free.PagesFree | src/kernel/mem.c:320-330 | the free set grows by exactly the pages given, but for those lost as above |
| PageList.Free.FreePages | src/kernel/mem.c:600-607 | the count is the size of the free set |
| PageRuns.BlockInRun | src/kernel/mem.c:16-24 | pages side by side are in one run, since runs never touch |
| PageRuns.LowJoined | src/kernel/mem.c:94-101 | joining a run below, and closing a gap, keeps order and pages |
| PageRuns.HighJoined | src/kernel/mem.c:102-106 | so does joining the one above |
| Pairs.Pipe.PutPacket | src/kernel/syscall.c:5216-5246 | a message goes on the end of the queue whole, or not at all |
| Pairs.Pipe.TakePacket | src/kernel/syscall.c:5266-5336 | a receive takes the oldest message, gives a prefix of it and drops the rest |
| Pairs.Pipe.PutStream | src/kernel/syscall.c:5247-5263 | bytes go on the end, and descriptors at the place of the first; short of a full buffer bytes stay out only from a part on for which memory was denied; a send that is refused leaves its descriptors in the queue if and only if it has some, there is room to note them, it has bytes, and not one of them can go in |
| Pairs.Pipe.RefusedSend | src/kernel/syscall.c:5247-5263 | at a full stream a byte and a descriptor are refused and the descriptor is queued |
| Pairs.Pipe.TakeStream | src/kernel/syscall.c:5266-5336 | bytes in order; the descriptors queued are given at their place, each batch once, in the order queued; no read crosses the next ones |
| Pairs.Pipe.Put | src/kernel/syscall.c:1172-1200 | as much as there is room for goes on the end, through compaction and growth |
| Pairs.Pipe.Read | src/kernel/syscall.c:1235-1250 | the oldest bytes |
| Pairs.Pipe.Write | src/kernel/syscall.c:1205-1229 | a write stops only when the buffer is full or cannot grow |
| Pairs.PacketsMore | src/kernel/syscall.c:5216-5246 | one message more leaves the bounds of the others as they were |
| Versions.Verrevcmp | src/tuxpac/tuxpac.c:144-173 | the sign is that of comparing lists of texts and numbers as Debian Policy section 5.6.12 describes |
| Versions.Vcmp | src/tuxpac/tuxpac.c:179-203 | the sign is that of epoch, upstream and revision in turn |
| Versions.VersionLaws | src/tuxpac/tuxpac.c:179-203 | comparing is reflexive, antisymmetric in sign and total |
| Versions.VersionChain | src/tuxpac/tuxpac.c:179-203 | and transitive, equal only if all are |
| Versions.CompareDigits | src/tuxpac/tuxpac.c:156-168 | digits compare as the numbers they stand for |
| Versions.Number | src/tuxpac/tuxpac.c:124-131 | the leading number as 32 bits hold it |
| Versions.PartsChain | src/tuxpac/tuxpac.c:144-173 | lists of parts compare transitively |
| Versions.OrderBands | src/tuxpac/tuxpac.c:135-138 | "~" sorts before the end, letters after it by their codes, and all others after letters |
| Versions.Suffixed | src/tuxpac/tuxpac.c:144-173 | with "~" and more after it a version is older, with any other character but a digit newer |
| Versions.SpelledIs | src/tuxpac/tuxpac.c:179-203 | what is before the first colon is the epoch, what is after the last dash the revision, and the first 39 characters between are the upstream version |
| Resolver.Scan | src/tuxpac/tuxpac.c:914-947 | a pass over the index leaves each want with a line of least rank, none of that rank being newer |
| Resolver.Match | src/tuxpac/tuxpac.c:914-947 | a line replaces the one found exactly when it is better, for groups of any length |
| Resolver.RankFound | src/tuxpac/tuxpac.c:914-947 | a line is found for a group if and only if one of the first 127 alternatives, or the 128th by name, suits it |
| Resolver.BestNext | src/tuxpac/tuxpac.c:902-912 | so what is found stays the best of the lines seen |
| Resolver.Plan.Choose | src/tuxpac/tuxpac.c:966-1011 | a want makes exactly its best line be planned, with its mark, exactly when no package of that name is planned, installed (for a dependency) or up to date (for an upgrade); without a line a dependency is reported; it is answered by a planned line itself or an installed record if and only if it does not slip, which is known before; a target without a line, and only that, is not found, and too many means a limit is reached |
| Resolver.Plan.Round | src/tuxpac/tuxpac.c:958-1023 | a round leaves every want met or noted as slipped, reports exactly the dependencies without a line, plans nothing else, and leaves every need of every planned line answered, reported, slipped or wanted |
| Resolver.Plan.Resolve | src/tuxpac/tuxpac.c:958-1026 | ends within PLAN + 1 rounds with distinct names, each planned line the best for something asked for or needed and not installed; what is reported has no line in the index; on success every target has a line, and everything asked for and needed is answered for good or was reported if and only if each want whose line was passed over for another of its name, or that leans on a package the plan replaces, is answered otherwise |
| Resolver.FulfilledIff | src/tuxpac/tuxpac.c:958-1026 | the step to that from what each round keeps |
| Resolver.UniformHolds | src/tuxpac/tuxpac.c:979-990 | where all lines of one name provide the same, and what is installed no less, no want slips |
| Resolver.SteadyHolds | src/tuxpac/tuxpac.c:958-1026 | and where what is installed provides no more, everything is fulfilled |
| Resolver.NamesakeSlips | src/tuxpac/tuxpac.c:979-990 | an index of a 1 (provides x), a 2 and b (needs x): the plan for a and b is a 2 and b, x is passed over, and nothing planned provides it |
| Resolver.ReplacedLeans | src/tuxpac/tuxpac.c:880-898 | the same with a 1 installed: x counts as satisfied by it, and a 2 is put in its place |
| Resolver.IsSatisfied | src/tuxpac/tuxpac.c:880-898 | whether an alternative is planned or installed, by name or by what is provided |
| Resolver.Plan.Look | src/tuxpac/tuxpac.c:863-877 | a group is noted once per round, and refused exactly when wants or their text are full |
| Resolver.NeedsAre | src/tuxpac/tuxpac.c:949-956 | a package needs what it says, and curl the certificates |

## Left out

- Firmware, boot, PCI, network and disk drivers, CR3, TLB and CR0 handling, threads, signals, exec and /proc.
- The regime in which the firmware owns memory (chunks), low memory for programs at a fixed address, and the bought, tables and low-owned counters: pages are taken from and given to one allocator, above the first gigabyte.
- The widths of reference counts and frame numbers: both are unbounded.
- Page tables are a map from space and page to an entry, with the table pages counted and freed; the order in which a walk visits them is left open.
- Vm.Kernel.Exit: does not model which space runs next.
- Share.SharedPages.Take: asks, as Hold and Drop do, for a table that has been made, because the source reads it without looking.
- Share.SharedPages.Add: asks for a file that starts somewhere, because an entry with start 0 is one without a file, and for a frame not tracked yet; Vm shows that of every call in every reachable state.
- Share.SharedPages.Adopt: asks for a frame not tracked yet, which Vm shows in the same way.
- FsData.Volume.WriteAt: asks that nothing lies past the data end, as the source takes for granted, and says afterwards exactly when that is so. In a write that is not ordinary, sector numbers past 2^32 are off the disk where the source's wrap, and the status is not predicted.
- FsData.Volume.Store: asks the same.
- FsIndex.FileTable.Store: takes the place of the data from the caller; FsData and Extents have the data.
- FsIndex.FileTable.Find: speaks of entries with a record only; those a failed growth left without one are named in its contract.
- FsIndex.FileTable.Rename: does not follow links or check names longer than an entry, which Paths does.
- The table, index and data of the filesystem are three models over one disk; copying the table when it grows, and crash consistency, are not modelled. That a moved table or index keeps apart from the files is.
- I/O errors of the filesystem, other than in SectorCache.
- The clock and slot numbers of the sector cache are unbounded.
- Paths.Resolve: links hold text without zero bytes, and reading a link does not fail.
- A source of bytes is one sequence; how often it is filled is not modelled. The checksum after the blocks is not looked at, as in the source.
- RFC 1951 does not say whether a decoder must refuse incomplete codes; Deflate.Sound follows the source, which takes one only with a single symbol, and the code length code must be complete.
- The xz container and its checks.
- SymbolCode.RoundTrip: is about one chunk; the chunk headers are said by LzmaSpec and SymbolCode.CountOnce alone.
- FsIndex.FileTable.IndexGrow: asks for what makes the loop end, because a call that does not end has no result.
- Page addresses are in pages; limits are whole pages, and the page at address 0 is never free.
- Giving pages back from the disk cache when memory is short.
- Waiting for a reader or writer, signals and closed ends of a pair; a write that would wait says so. Credentials of senders.
- Pairs.Pipe.PutPacket: the buffer grows when it must; if it could not the bounds of the message would be wrong.
- How index and database lines are split into fields, and truncated at a line's length.
- Versions.Vcmp: an upstream version is compared as far as 39 characters and an epoch as 32 bits, as in the source.
- Fetching, unpacking, maintainer scripts and removal of packages.
