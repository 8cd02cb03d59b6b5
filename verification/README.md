# A verified model of scubed3

scubed3 keeps a flat virtual disk in encrypted macroblocks that are overwritten in a random order. Writes go to one
macroblock in memory; before a macroblock is overwritten, what is still live in it is copied to the one in memory;
and when a device is opened, its map is rebuilt from the headers of its macroblocks. This project models that
machinery in Dafny, from the request loop down to the bytes of a header, and proves what it promises.

`dafny verify dfyconfig.toml` checks everything.

## How it is built

The source changes its structures in place, and so do the classes here: `Volume.Scubed` (the device),
`JugglerLists.Provider` (the scheduler), `Dllarr.List` (nodes on the heap, with their links, array and indices),
`Ownership.Pool` (who owns which macroblock), `Bitmap.BitSet`, `Random.Source`, and the buffer methods of `Binio`,
`Cbc` and `IndexBuffer`. Each of their methods is proved equal to a function of the old state (modules `Device`,
`Juggler`, `Recovery`, `Flat`, ...), and the properties are lemmas about those functions. A failed assertion, an index
out of bounds or a FATAL exit of the source is the result `Fail(AssertionFailed)`; the lemmas say when it cannot
happen.

| modules | what they are about |
|---|---|
| `Random`, `Juggler`, `Draws`, `JugglerLists` | random numbers without bias; the scheduler that promises every macroblock a future; what the draws decide |
| `Device`, `Bookkeeping`, `Steps`, `Requests`, `Flat`, `Resizing` | the device, its invariant, the refinement to a flat array of bytes, and how it grows |
| `Recovery`, `Torn`, `Sessions` | opening from headers, also after an interrupted write; whole runs with resizing, closings and crashes |
| `Gc` | why garbage collection ends |
| `Hazards`, `Counterexample` | the two hypotheses, that they are exact, and devices made of nothing that show what happens without them |
| `Volume` | the device as an object, statement by statement |
| `Hashtbl`, `Finding`, `HeldSearch` | hand-over-hand locking in the hash table; what searches find; threads that search with an element in hand |
| `Dllarr`, `Ownership` | the list with an array; conservation of macroblocks |
| `Binio`, `Bitmap`, `Cbc`, `IndexBlock`, `IndexBuffer`, `Packing`, `OnDisk` | bytes, ciphers, headers and sizes |

## Inputs from outside

- Random words come from a finite tape that is arbitrary. Its end is the fatal error of a short read from
  /dev/urandom, so the retry loops end by themselves; `NoEntropy` is the only failure that the theorems leave open.
- The block cipher is any permutation of 16-byte blocks, SHA-256 any function to 32 bytes. In `Device.Header` the
  digest of the scheduled seqnos is represented by the list of seqnos that is hashed.
- A macroblock that a device did not write is taken not to decrypt to a valid index block of that device.
- The headers are scanned in any order that reaches every macroblock. Offsets and lengths are below 2^63, as off_t is.
- A crash may come after any completed write of a request and interrupt the next write. What is left of the macroblock
  being overwritten is arbitrary data behind its old header or behind none that can be read.

## The two hypotheses

- FILLER: no mesoblock is added to a macroblock that is scheduled for immediate reselection. The design calls for a
  dummy write there (README.md:406), but do_write has no such check. `Sessions.Admissible` states the hypothesis,
  `Hazards.SpoiledExactly` and `Hazards.FillerIsExact` say exactly when its absence does harm, and
  `Counterexample.ByteIsLost` is a byte that does not come back.
- EVAC: a macroblock is written only after the one to be overwritten next was evacuated. do_write, scubed3_cycle and
  select_new_macroblock see to that. The resize command does not: it sets `updated`, and closing then writes
  (`Sessions.Evac`). `Hazards.ResizeIsExact` says exactly when that loses data, and
  `Counterexample.ByteIsOverwritten` shows it.

Runs start from any state that satisfies the invariant. `Hazards.CreationOpens` gives that of a device when its first
macroblocks are allocated, and `Sessions.ReopenRestores` those of devices that are opened.

## Where the code and its descriptions differ

- A request of no bytes at offset 0 is refused as past the end, because the offset of its last byte wraps around
  (`Flat.BoundsCheck`).
- do_req returns 1 both when it refuses a request and when it succeeds, and its callers ignore the value. The reply
  `PastEnd` of the model is therefore an answer that the caller cannot tell from success.
- Only completed writes are safe. do_write sets `updated` before a switch that clears it again, so a write that found
  the current macroblock full is in memory without the flag, and an ordinary close forgets it
  (`Sessions.SwitchForgets`, `Sessions.CloseForgets`; `Sessions.CloseIsExact` says exactly when a close keeps the
  contents).
- If the macroblock being overwritten is the one written last, which immediate reselection brings about, its header is
  the newest of all. Losing it to an interrupted write takes the newest bitmap, reserve and seqno with it. Everything
  that was ever written still comes back, but the device is as large as the next newest header says, and some seqno is
  used again (`Torn.LostRecovers`). `Counterexample.SizeIsLost` is a device that becomes smaller in this way; the digest
  of seqnos gives no warning there, as the lost block was new (`Torn.LostIsNoticed`).
- Opening does not check the data hash. A write interrupted between its header and its data is taken for complete, and
  the contents are kept exactly if what is live in the macroblock happens to decrypt to what it was
  (`Torn.OtherDataRecovers`).
- dec_plain never advances its input pointer when input and output differ, so it decrypts the first block again and
  again; every caller decrypts in place (`Cbc.StuckIsExact`).
- The location in do_write is looked up before the output is initialised, so a mesoblock that evacuation has just
  brought to memory can still cause a switch (`Device.MakeRoom`); no data is harmed.
- The number of indices in a header is not checked against the room for them before they are copied
  (`IndexBlock.Decode`, result `Overrun`).
- Locations pack into 32 bits without loss exactly while macroblocks are smaller than 2^30 bytes, which no check at
  open ensures (`Packing.PackingIsExact`).
- A thread that holds an element can deadlock if it starts a search, and nothing in the table prevents it. Searches in
  higher buckets are safe, and no others are (`HeldSearch.HoldersMustGoUp`).

## Model

| member | source | states |
|---|---|---|
| `Random.LimitIsExact` | src/random.c:50-55 | the 32-bit expression, which wraps around, equals count * floor(2^32 / count) - 1 for every count from 1 to 2^32 - 1 |
| `Random.Uniform` | src/random.c:57-60 | every residue is the image of exactly floor(2^32 / count) accepted words: no bias |
| `Random.MostWordsAreAccepted` | src/random.c:57-58 | more than half of all words are accepted, whatever the count |
| `Random.CustomIsFirstAccepted` | src/random.c:46-61 | the result is the first accepted word modulo count, and there is none exactly if no word is accepted |
| `Random.OneCandidate` | src/random.c:46-61 | with a single candidate the first word is accepted, so the slot loop ends at once where only one block is available |
| `Random.Source.RandomCustom` | src/random.c:46-61 | the retry loop on the stream returns that result and consumes exactly the words up to it |
| `Juggler.SelectKeeps` | src/juggler.c:111-185 | a normal selection trips no assertion; one block leaves its list, gets the next seqno and a free future slot; no other promise changes; the lists stay sorted, disjoint and able to go on |
| `Juggler.DiscardKeeps` | src/juggler.c:76-90 | a discard is refused exactly when it is not possible, and otherwise leaves a state that can go on without the block |
| `Juggler.DiscardIsExact` | src/juggler.c:76-90 | the test is right: a discard is possible exactly if the juggler could go on without the block, whichever is drawn |
| `Juggler.AddNewKeeps` | src/juggler.c:47-54 | adding a new block is always accepted and changes no promise |
| `Juggler.NeverSticks` | src/juggler.c:111-185 | from at least one block, no interleaving of additions, selections and discards fails an assertion, for any random words |
| `Juggler.PromisesAreKept` | src/juggler.c:118-182 | over any run, a block promised for seqno n is the one, and the only one, handed out when the seqno rises to n; until then the promise stays in the list |
| `Juggler.SeqnosIncrease` | src/juggler.c:144-155 | over any run, the seqnos handed out strictly increase, apart from the 0 of discarded blocks that were never written |
| `Juggler.PlaceIsFirstZero` | src/juggler.c:150-182 | the list walk chooses the first free slot whose draw is 0, where the draw at a free slot is over the block itself, the unscheduled blocks and those promised before the slot |
| `Draws.HandsOutUniformly` | src/juggler.c:122-142 | where no block is promised, every unscheduled one is handed out by exactly floor(2^32 / no_unscheduled) of the first words, by selections and by discards |
| `Draws.SelectPlaces` | src/juggler.c:144-182 | the slot of the block handed out is the one that the specification names for the words left after that draw, and no word is lost |
| `Draws.PlacesUniformly` | src/juggler.c:150-182 | a block that comes up again is promised the first free slot by exactly floor(2^32 / c) of the first words, where c counts the block, the unscheduled ones and those promised before the slot |
| `Juggler.SortedIsUnique` | src/juggler.c:55-63 | the order of the scheduled list is determined by its members |
| `Juggler.LoadSorts` | src/juggler.c:47-66 | blocks with distinct promises are loaded in any order without a failed assertion; the list has exactly them, sorted, and the seqno is the greatest one loaded |
| `Juggler.ReloadRestores` | src/juggler.c:43-66 | the stored (seqno, next_seqno) pairs, in any order, give back the scheduled list, the seqno and the digest as at the last selection |
| `JugglerLists.Provider.AddMacroblock` | src/juggler.c:47-66 | the in-place insertion loop has the effect of `Juggler.AddMacroblock`, keeps both counters equal to the list lengths, and changes nothing when it fails |
| `JugglerLists.Provider.DiscardIsPossible` | src/juggler.c:76-90 | the test on the counters is the test on the lists |
| `JugglerLists.Provider.GetDevblock` | src/juggler.c:111-185 | selection or discard on the lists in place has the outcome and the new state of `Juggler.GetDevblock`; a refused discard changes nothing |
| `JugglerLists.Provider.Replace` | src/juggler.c:144-182 | the slot loop links the block in where `Juggler.Place` says |
| `JugglerLists.Provider.HashScheduledSeqnos` | src/juggler.c:92-109 | what is hashed is the list of the scheduled blocks' seqnos in order |
| `Bookkeeping.LiveSlots` | src/scubed3.c:52-79 | the live mesoblocks of a block are as many as its slots k with block_indices[indices[k]] = (id, k); with the invariant this is no_nonobsolete of every block but the current one |
| `Bookkeeping.MoveKeepsCore` | src/scubed3.c:52-79 | moving a mesoblock to the current macroblock (obsolete the old version, add a reference) keeps the whole invariant |
| `Bookkeeping.MoveContents` | src/scubed3.c:374-388 | such a move changes the contents of that mesoblock and of no other |
| `Steps.CopySlotProgress` | src/scubed3.c:94-108 | one turn of the evacuation loop trips no assertion, loses no data, and keeps the sum of free room and live mesoblocks |
| `Steps.CopyOldEvacuates` | src/scubed3.c:86-110 | evacuation moves exactly what is live in the block to be overwritten to the current block; nothing is live there afterwards and the contents are unchanged |
| `Steps.WriteParks` | src/blockio.c:480-544 | writing the current block keeps the invariant and the contents, which now are all on disk |
| `Steps.WriteClears` | src/blockio.c:489-500 | on disk every slot in use decrypts to what the buffer held, and every unused one to zeros |
| `Steps.WriteForgets` | src/blockio.c:489-494 | what the buffer held before the block was begun leaves no trace in what is written |
| `Steps.SelectOpens` | src/blockio.c:238-251 | after evacuation, the block selected for overwriting holds no live mesoblock, so the contents survive its selection |
| `Steps.WriteKeepsHistory` | src/blockio.c:480-544 | the headers tell the past: each knows of all blocks, and has room for all mesoblocks, that headers before it tell of, and knows of a block to go on with |
| `Requests.SwitchKeeps` | src/blockio.c:253-257 | write and select together keep invariant and contents, and raise the seqno by one |
| `Requests.SelectNewKeeps` | src/scubed3.c:161-174 | the loop of switches and evacuations keeps the contents and ends with room in the current block |
| `Requests.MakeRoomKeeps` | src/scubed3.c:332-372 | do_write up to its copy keeps the contents and makes room for the mesoblock |
| `Requests.SwitchIsExact` | src/scubed3.c:332-372 | do_write switches exactly if the mesoblock was not in memory when it was called, and the current block is full, counting what evacuation adds |
| `Requests.WriteSetsFlag` | src/scubed3.c:342 | after do_write the update flag is set exactly if no block was switched |
| `Requests.WriteRefines` | src/scubed3.c:332-391 | do_write replaces the given bytes of one mesoblock and changes nothing else, through any number of switches |
| `Requests.ReadRefines` | src/scubed3.c:393-409 | do_read returns the current bytes of a mesoblock, zeros where it was never written |
| `Requests.CycleRefines` | src/scubed3.c:190-205 | a cycle changes no contents, writes exactly one macroblock, under the current seqno, raises the seqno by one, and leaves an open device with the update flag clear |
| `Flat.BoundsCheck` | src/scubed3.c:424-430 | with its wrapping arithmetic the bounds check refuses exactly what reaches past the end, and the empty request at offset 0 |
| `Flat.RequestRefines` | src/scubed3.c:411-453 | do_req, with its head, middle and tail parts, answers any request of any offset and length as a flat array of bytes would, under FILLER |
| `Flat.RequestFlags` | src/scubed3.c:411-453 | reads and refused requests leave the whole device as it was; a write that causes no switch leaves the update flag set |
| `Resizing.ResizeKeepsOpen` | src/control.c:619-662 | the resize command, with any blocks that were drawn, keeps the invariant and the contents, behind which zeros appear; it ends the program exactly if the device would shrink |
| `Recovery.ScanSorts` | src/blockio.c:330-439 | scanning the headers in any order lists exactly the macroblocks with a header, sorted by seqno |
| `Recovery.ScanIsExact` | src/blockio.c:330-439 | for any file the scan succeeds exactly if no two headers have the same seqno |
| `Recovery.OpenedIsConsistent` | src/blockio.c:287-327 | for any file, if opening succeeds, the newest header decides, and its bitmap marks every macroblock that has a header and only such as exist |
| `Recovery.ReplayAllKeeps` | src/scubed3.c:207-221 | replaying blocks in order of seqno trips no assertion and points every mesoblock to its newest version |
| `Recovery.ReplayedOnce` | src/scubed3.c:207-221 | whatever is on file, the replay of a block succeeds only if it lists no mesoblock of the device twice |
| `Recovery.ReplayPassesOver` | src/scubed3.c:213 | indices beyond the end of the device are passed over |
| `Recovery.ReplayRestores` | src/scubed3.c:272-295 | after the replay block_indices, no_indices and no_nonobsolete are as when the newest block was written |
| `Recovery.RecoverRestores` | src/scubed3.c:272-309 | opening gives back the map, the records, the used blocks and the juggler from the headers alone |
| `Recovery.DigestAgrees` | src/scubed3.c:304-308 | after a completed write the recomputed digest of seqnos is the stored one |
| `Torn.LostRecovers` | src/blockio.c:341-439 | the header of the macroblock being overwritten is lost, be it the newest of all or not: opening from the other macroblocks alone succeeds, and gives back the map, the records and all that was ever written; the contents are the same exactly if blocks and reserve in the newest header left make the size that there was, and otherwise lack untouched mesoblocks at the end; the seqno is the old one exactly if the lost header was not the newest |
| `Torn.LostAlone` | src/blockio.c:293-296 | if it was the only header, there is nothing to open |
| `Torn.LostIsNoticed` | src/scubed3.c:304-308 | otherwise the digest of seqnos warns exactly if the lost block carried a header already when the newest one left was written |
| `Torn.OlderIsNoticed` | src/scubed3.c:304-308 | so it does whenever the lost header was not the newest |
| `Torn.OtherDataRecovers` | src/blockio.c:341-439 | with any other data behind a readable header the device opens as before, and with the same contents exactly if what is live in the macroblock still decrypts to what it was; in particular if nothing is |
| `Sessions.TornOnFile` | src/blockio.c:480-544 | an interrupted write of the current block loses nothing that was on file: what was live is in the other macroblocks |
| `Sessions.SelectNewSaves` | src/scubed3.c:161-174 | when the loop of switches is done, the file holds what the device held |
| `Sessions.SelectNewMarked` | src/scubed3.c:161-174 | so it does after every single write of the loop |
| `Sessions.CycleSaves` | src/scubed3.c:190-205 | after a cycle the file holds what the device holds |
| `Sessions.RequestSaves` | src/scubed3.c:411-453 | after a write the file is as before, or holds the old contents with a prefix of the data |
| `Sessions.AllMarked` | src/scubed3.c:411-453 | after every single macroblock write within a request, the file holds the old contents with a prefix of the data |
| `Sessions.MarksAreWrites` | src/scubed3.c:411-453 | and those states are all there are: one after each macroblock that the request writes |
| `Sessions.ReopenRestores` | src/scubed3.c:272-309 | after a crash the device opens with what it held when the last macroblock was written |
| `Sessions.CloseIsExact` | src/blockio.c:195-200 | under EVAC, closing and opening again keeps the contents exactly if the update flag was set or they were on file anyway |
| `Sessions.SwitchForgets` | src/scubed3.c:342-372 | a do_write that finds the current block full leaves its data in memory with the update flag cleared |
| `Sessions.CloseForgets` | src/scubed3.c:342-372 | closing right after it brings back the contents from before that write |
| `Sessions.WriteSurvivesClose` | src/blockio.c:195-200 | a write request that caused no switch comes back after an ordinary close |
| `Sessions.RunRefines` | src/scubed3.c:411-453 | under FILLER and EVAC, any run of requests, cycles, resize commands, closings and crashes, also in the middle of a request or of a write, answers as a flat array with a saved copy and a flag that says whether closing will update the copy; a write either stays in memory and sets the flag, or updates the copy up to its last mesoblock at least; the run ends early only for want of random words; and no seqno is ever used for two completed writes |
| `Gc.TurnsRaiseSeqno` | src/scubed3.c:161-174 | the turns counted by `Gc.Turns` are those of the loop: a completed call raises the seqno by one for each |
| `Gc.GcEnds` | src/scubed3.c:161-174 | whatever is drawn, and whether or not the words last, the loop makes fewer turns than there are seqnos up to the one promised to a block with room |
| `Gc.RoomExists` | src/scubed3.c:248-249 | with reserved_macroblocks >= no_unscheduled + 2 there is a scheduled block, neither current nor next, with fewer than mmpm live mesoblocks |
| `Gc.GcTerminates` | src/scubed3.c:161-174 | with a full block and that reserve, the number of turns is below a bound fixed before the first draw, and the call fails only for want of random words |
| `Gc.GcSucceeds` | src/scubed3.c:161-174 | with two zero words for every seqno before the promised one, the call succeeds |
| `Gc.CrowdedForever` | src/scubed3.c:161-174 | where two blocks take turns and what is live fills one of them, every zero word means another turn |
| `Gc.GcCanSucceed` | src/scubed3.c:161-174 | from every such state there are random words with which garbage collection succeeds |
| `Hazards.SpoiledExactly` | src/scubed3.c:377-388 | adding a mesoblock breaks the invariant exactly if the current block is scheduled for immediate reselection |
| `Hazards.FillerIsExact` | src/scubed3.c:332-391 | a mesoblock in memory is read back after a switch exactly if its block is not reselected at once, or its ciphertext equals its plaintext |
| `Hazards.Overwritten` | src/blockio.c:195-200 | closing with the update flag set but without evacuation: what was live in the next block reads as zeros, and everything else is kept |
| `Hazards.EvacIsExact` | src/blockio.c:195-200 | the contents survive that exactly if everything live in the next block was zero |
| `Hazards.ResizeOverwrites` | src/control.c:645-662 | what the resize command and a closing right after it do to every mesoblock of an open device |
| `Hazards.ResizeIsExact` | src/control.c:645-662 | the contents survive the two exactly if everything live in the next block was zero |
| `Hazards.FreshOpens` | src/control.c:660 | a device with new blocks only selects its first block and reads as zeros everywhere |
| `Hazards.CreationOpens` | src/control.c:645-662 | the first resize command on a device that has nothing opens it; it reads as zeros, and may be closed at once |
| `Counterexample.ByteIsLost` | src/scubed3.c:332-391 | a device is made of nothing, 7 is written, and 8 is read after a switch |
| `Counterexample.ByteIsOverwritten` | src/control.c:645-662 | a device is made of nothing, 7 is written and brought on file, and by resizing and closing it becomes 0 |
| `Counterexample.SizeIsLost` | src/blockio.c:480-544 | a device is made of nothing, written, resized and closed; an interrupted write then takes one of its two mesoblocks, and the digest gives no warning |
| `Counterexample.ReserveIsSharp` | src/scubed3.c:161-174 | a device with one reserved block less than `Gc.GcTerminates` asks for, on which garbage collection makes more turns than any given number |
| `Volume.Scubed.ObsoleteMesoblk` | src/scubed3.c:52-62 | the counter is lowered, and at zero the list of indices is emptied; the new state is that of `Device.Obsolete` |
| `Volume.Scubed.AddBlockref` | src/scubed3.c:74-79 | the index is listed and the map points to its slot |
| `Volume.Scubed.CopyOldBlockToCurrent` | src/scubed3.c:86-110 | the loop over the old block, whose list may be emptied under way, has the effect of `Device.CopyOld` (see `Steps.CopyOldEvacuates`) |
| `Volume.Scubed.InitializeOutput` | src/scubed3.c:176-188 | evacuates once |
| `Volume.Scubed.EncryptData` | src/blockio.c:489-500 | the two loops clear the unused mesoblocks and encrypt all of them in place under (seqno, slot, id) |
| `Volume.Scubed.WriteCurrentMacroblock` | src/blockio.c:480-544 | the state after the write is that of `Device.WriteCurrent` (see `Steps.WriteParks`) |
| `Volume.Scubed.SelectNextMacroblock` | src/blockio.c:238-251 | the state after the selection is that of `Device.SelectNext` (see `Steps.SelectOpens`) |
| `Volume.Scubed.SelectNewMacroblock` | src/scubed3.c:161-174 | the loop ends in the state of `Device.SelectNew` (see `Requests.SelectNewKeeps`), after as many completed switches as `Gc.Turns` counts (see `Gc.GcTerminates`) |
| `Volume.Scubed.DoCycle` | src/scubed3.c:190-205 | the state of `Device.Cycle` (see `Requests.CycleRefines`) |
| `Volume.Scubed.WriteToMesoblk` | src/scubed3.c:332-391 | the state of `Device.DoWrite` (see `Requests.WriteRefines`) |
| `Volume.Scubed.AllocateMacroblocks` | src/blockio.c:588-603 | the loop over the blocks drawn has the effect of `Device.Allocate` (see `Resizing.ResizeKeepsOpen`) |
| `Volume.Scubed.Reinitialize` | src/scubed3.c:243-270 | the loop over the new part of the map has the effect of `Device.Reinit` |
| `Volume.Scubed.Grow` | src/control.c:619-662 | the state of `Device.Resize` (see `Resizing.ResizeKeepsOpen`) |
| `Volume.Scubed.ReadFromMesoblk` | src/scubed3.c:393-409 | the bytes of `Device.DoRead` (see `Requests.ReadRefines`) |
| `Volume.Scubed.Req` | src/scubed3.c:411-453 | the loops over the parts of a request give the state and reply of `Flat.DoReq` (see `Flat.RequestRefines`) |
| `Volume.Scubed.Replay` | src/scubed3.c:207-221 | the replay of one block in place |
| `Volume.Scubed.ScanHeaders` | src/blockio.c:287-289 | the scan gives the list of `Recovery.Scan` |
| `Volume.Scubed.ClaimBlocks` | src/blockio.c:303-320 | the blocks that the bitmap claims without a header go to the juggler |
| `Volume.Scubed.Init` | src/scubed3.c:272-309 | opening in place ends in the state of `Recovery.Recover` (see `Recovery.RecoverRestores`) |
| `Hashtbl.LinkKeeps` | src/hashtbl.c:318-331 | linking an element in keeps the invariant for every other thread's walk |
| `Hashtbl.UnlinkKeeps` | src/hashtbl.c:33-40 | unlinking an element keeps the invariant, whoever else walks the bucket |
| `Hashtbl.RunInv` | src/hashtbl.c:155-225 | mutual exclusion and the place of every walk are kept by any interleaving of any number of threads |
| `Hashtbl.KeysStayUnique` | src/hashtbl.c:275-331 | a table with unique keys never holds two elements with equal keys |
| `Hashtbl.DestroyedUnused` | src/hashtbl.c:43-51 | when an element's mutexes are destroyed, no other thread holds or awaits them |
| `Hashtbl.Ordered` | src/hashtbl.c:155-175 | a thread awaits only mutexes that come after all it holds, in the order uniq, along the chain, counter |
| `Hashtbl.WaitsForIsAcyclic` | src/hashtbl.c:155-175 | where every thread searches with empty hands, no path of waiting threads returns to its start; `HeldSearch.UpwardIsAcyclic` is the statement for threads that hold an element |
| `Hashtbl.NoDeadlock` | src/hashtbl.c:394-409 | while some thread is busy, some thread can step |
| `Hashtbl.QuietCount` | src/hashtbl.c:267-270 | the counter is the number of elements whenever nobody adds or deletes |
| `Hashtbl.CountNotNegative` | src/hashtbl.c:267-270 | the assertion on the counter never fails, though adding counts before linking and deleting before unlinking |
| `Finding.FindReturnsKey` | src/hashtbl.c:155-175 | whatever the interleaving, a find by key returns an element of the table that has the key |
| `Finding.AddLinks` | src/hashtbl.c:318-331 | an addition links in its element, whose key the table does not have, and changes nothing else |
| `Finding.AddReturns` | src/hashtbl.c:318-331 | and ends with the element in hand |
| `Finding.DeleteTakesKey` | src/hashtbl.c:33-51 | a deletion unlinks an element with the key, or the element, that it was given, and nothing else |
| `Finding.DuplicateExists` | src/hashtbl.c:275-331 | an addition gives up only where the table has an element with the same key |
| `Finding.SearchSucceeds` | src/hashtbl.c:155-204 | a find or a deletion gets its element if that stays in the table while the search lasts, whatever is added and deleted meanwhile |
| `Finding.TraversalVisits` | src/hashtbl.c:191-225 | going through the table, from the first element to the last, visits every element that stays in it all the while |
| `HeldSearch.HeldRunIsRun` | src/hashtbl.c:155-225 | threads that search with an element in hand take the same steps, so mutual exclusion, unique keys and safe destruction hold for them too |
| `HeldSearch.HoldersMustGoUp` | src/hashtbl.c:178-204 | given that a thread with an element may search in higher buckets, the waits-for graph of every table is free of cycles in every reachable state exactly if it may search in no others |
| `HeldSearch.UpwardIsAcyclic` | src/hashtbl.c:255-331 | if it searches upward only, no path of waiting threads returns to its start |
| `HeldSearch.UpwardNeverDeadlocks` | src/hashtbl.c:394-409 | then, while some thread is busy, some thread can go on or give back an element |
| `HeldSearch.SameBucketDeadlocks` | src/hashtbl.c:178-189 | a reachable deadlock for any bucket in which holders may search for more |
| `HeldSearch.LowerBucketDeadlocks` | src/hashtbl.c:178-189 | a reachable deadlock for any lower bucket in which they may |
| `Dllarr.List.constructor` | src/dllarr.c:57-78 | an empty list that represents the empty sequence |
| `Dllarr.List.Nth` | src/dllarr.c:228-233 | element n of the sequence, whose stored index is n |
| `Dllarr.List.Index` | src/dllarr.c:235-239 | the inverse of the above |
| `Dllarr.List.First` | src/dllarr.c:97-100 | the first element of the sequence by following the links, or null if it is empty |
| `Dllarr.List.Last` | src/dllarr.c:109-112 | the last one, backwards |
| `Dllarr.List.Insert` | src/dllarr.c:136-182 | links, array and indices all represent the sequence with the new element before the given one, also when the array must grow |
| `Dllarr.List.Prepend` | src/dllarr.c:188-190 | the same at the front |
| `Dllarr.List.Remove` | src/dllarr.c:192-214 | they represent the sequence without the element, which is left unlinked |
| `Dllarr.List.FirstNotBelow` | src/dllarr.c:121-133 | the walk finds the first element with a key that is not below the given one |
| `Dllarr.List.SortIn` | src/blockio.c:330-339 | inserting before that element keeps the replay list sorted by seqno |
| `Dllarr.RemoveUndoesInsert` | src/dllarr.c:192-214 | removing what was inserted gives back the sequence |
| `Ownership.EachOnce` | src/blockio.h:91-94 | a macroblock is unallocated, with no device, or in exactly one list of exactly one device |
| `Ownership.Pool.constructor` | src/blockio.c:182-187 | all macroblocks of a new pool are unallocated |
| `Ownership.Pool.DevInit` | src/blockio.c:259-328 | opening takes over exactly the free macroblocks with a readable header, in replay order, and those the bitmap claims; then the bitmap marks exactly what the device owns, and no other device lost a block |
| `Ownership.Pool.LoadJuggler` | src/scubed3.c:299-302 | emptying the replay list into the juggler keeps the set of blocks |
| `Ownership.Pool.Allocate` | src/blockio.c:578-609 | the device gets the blocks that the words draw from the unallocated list, one after the other, in its bitmap, its juggler and the owner table, and nothing else changes; too few blocks change nothing at all; the assertion on the status bit never fails |
| `Draws.IthDraw` | src/blockio.c:588-594 | the i-th block allocated is the one that the i-th draw names in the list as it is then |
| `Draws.DrawOutSplits` | src/blockio.c:588-594 | the blocks drawn are different, as many as asked for, and all others are left |
| `Draws.TakesUniformly` | src/blockio.c:590-591 | every unallocated block is the next to be taken for exactly floor(2^32 / n) of the words, where n of them are left |
| `Ownership.Pool.Free` | src/blockio.c:195-236 | exactly the blocks of the closed device are unallocated again |
| `Binio.ReadsBack` | src/binio.c:31-49 | reading gives back any number that fits |
| `Binio.WritesBack` | src/binio.c:31-49 | every string of bytes is the encoding of the number read from it |
| `Binio.WriteUint32` | src/binio.c:31-37 | the four stores leave the big-endian bytes and touch nothing else |
| `Binio.WriteUint64` | src/binio.c:39-49 | the eight stores leave the big-endian bytes and touch nothing else |
| `Binio.ReadUint32IsNum` | src/binio.c:87-90 | the shifted bytes add up to the big-endian number |
| `Bitmap.ParseInvertsImage` | src/bitmap.c:131-147 | a bitmap is read back as written |
| `Bitmap.CountIsSize` | src/bitmap.c:131-139 | the sum of population counts is the number of set bits |
| `Bitmap.BitSet.SetBitSafe` | src/bitmap.c:89-95 | exactly the one bit is set, and no_set stays exact exactly if the bit was clear |
| `Bitmap.BitSet.ClearBitSafe` | src/bitmap.c:109-116 | exactly the one bit is cleared, and no_set, in 32 bits, is exact afterwards exactly if it was before |
| `Bitmap.BitSet.GetBit` | src/bitmap.c:54-77 | with size 1 the shifts and masks return the bit |
| `Bitmap.BitSet.Read` | src/bitmap.c:131-139 | the words are those encoded, and no_set is exact |
| `Bitmap.BitSet.Write` | src/bitmap.c:141-147 | the words are written big-endian in place, touching nothing else |
| `Cbc.EncAt` | src/cipher_cbc.c:82-97 | each ciphertext block is the encryption of the plaintext block combined with the ciphertext block before it, as in section 6.2 of NIST SP 800-38A |
| `Cbc.DecAt` | src/cipher_cbc.c:108-134 | the equation for decryption in the same section |
| `Cbc.XorAt` | src/cipher_cbc.c:82-134 | a bit of the combination of two blocks is set exactly if their bits differ |
| `Cbc.EncryptAt` | src/cipher.c:99-107 | every ciphertext block in each mode: the chain starts with the vector, or with its encryption under the second key |
| `Cbc.DecInvertsEnc` | src/cipher_cbc.c:82-134 | decryption undoes encryption, for any permutation |
| `Cbc.EncInvertsDec` | src/cipher_cbc.c:82-134 | encryption undoes decryption |
| `Cbc.EncPlain` | src/cipher_cbc.c:82-97 | the loop computes the mode, also when output and input are one buffer |
| `Cbc.DecPlain` | src/cipher_cbc.c:108-134 | in place the loop computes the mode; into another buffer it decrypts the first block each time |
| `Cbc.StuckIsExact` | src/cipher_cbc.c:108-129 | the latter is right exactly if all ciphertext blocks are equal |
| `Cbc.SetIvInjective` | src/cipher.c:93-97 | distinct (seqno, slot, macroblock) triples give distinct initialisation vectors |
| `Cbc.SetIvFields` | src/cipher.c:93-97 | the vector holds seqno, slot and macroblock in eight, four and four bytes, the most significant first |
| `Cbc.CipherEnc` | src/cipher.c:99-107 | encryption in place, in every mode |
| `Cbc.CipherDec` | src/cipher.c:109-117 | decryption in place, in every mode |
| `Cbc.ModeIsGood` | src/cipher.c:99-117 | NULL, CBC_PLAIN and CBC_ESSIV over any permutation meet what the device needs of its cipher |
| `IndexBlock.DecodeInvertsEncode` | src/blockio.c:357-435 | the header scan gives back every field that was written |
| `IndexBlock.EncodeLayout` | src/blockio.c:502-535 | where every number of a written index block is, and that unused indices are zero |
| `IndexBlock.EncodeInvertsDecode` | src/blockio.c:357-435 | an accepted index block is, byte for byte, the encoding of the fields read from it, which are well formed |
| `IndexBlock.AcceptedIsExact` | src/blockio.c:369-411 | exactly the encodings of well-formed fields are accepted |
| `IndexBlock.PassedOverIsExact` | src/blockio.c:357-380 | the scan passes over a macroblock exactly if the magic string or the hash is wrong |
| `IndexBuffer.FillIndex` | src/blockio.c:502-535 | the stores and loops leave exactly the encoding in the buffer |
| `IndexBuffer.FillIndices` | src/blockio.c:521-528 | the two loops write the zero-padded list of indices and touch nothing else |
| `IndexBuffer.ScanIndex` | src/blockio.c:369-435 | the checks and loops of the scan compute the decoding, with its four outcomes |
| `OnDisk.ScanReadsBack` | src/blockio.c:341-439 | from the encrypted bytes of a macroblock the scan gets seqno, next_seqno, indices, counts and bitmap, and the data hash agrees |
| `OnDisk.WrittenReadsBack` | src/blockio.c:452-544 | what was encrypted is read back: the header, and every mesoblock, zero where unused |
| `OnDisk.FormatIsGood` | src/blockio.c:480-544 | any such cipher, layout and hash meet what the theorems about the device ask of its geometry |
| `OnDisk.ShapeIsGood` | src/blockio.c:115-134 | accepted parameters give a layout of exactly one mesoblock, in whole cipher blocks |
| `Packing.RegionsTile` | src/blockio.c:273-274 | the assertion at open never fails for accepted parameters; the bitmap has whole words, and mmpm is positive and fits in 16 bits |
| `Packing.PackingIsExact` | src/scubed3.c:49-72 | the packing of (id, slot) in 32 bits is lossless, and no real id looks like the sentinel's, exactly for macroblock_log <= 29 |
| `Packing.PackedTests` | src/scubed3.c:97-99 | comparisons of packed values decide equality of locations, whether one was ever written, and whether it is in a given macroblock |
| `Packing.IndicesFit` | src/scubed3.c:283-284 | the number of block indices does not wrap around |

## Left out

- FUSE callbacks, the control socket, option parsing, messages and statistics: input, output and user interface.
- libgcrypt, SHA-256, PBKDF2, key handling, file I/O and pthread internals: abstract functions and lock steps.
- Exceptions by setjmp and longjmp, memory wiping and failed allocations.
- hashtbl_empty and hashtbl_free (they lock in another order), tables that are not thread safe or not unique, and
  hashtbl_cond_wait_element_byptr, which gives up an element and takes it again.
- Hashtbl.KeysStayUnique: keys are numbers that never change; get_bucket is any function below the number of buckets.
- Discards at the level of the device: the juggler has them, but no code under src asks for one.
- Resizing.ResizeKeepsOpen: the draw of the blocks and the case of too few of them are the subject of
  Ownership.Pool.Allocate; shrinking is not implemented in the source.
- blockio_check_data_hash appears only as a predicate of OnDisk.
- Sessions.RunRefines: seqnos and counters are unbounded numbers; a device would need 2^64 writes to wrap them.
- OnDisk.WrittenReadsBack: asks for numbers that fit their fields, which is the same bound.
- Recovery.DigestAgrees: seqnos that differ but have equal digests are not considered, since equal seqnos are what is
  proved.
- Sessions.RunRefines: an interrupted write that leaves the new header without its data, or takes the newest header
  along (so that its seqno is used again), is not among its crashes; module Torn says what becomes of those. A write that was interrupted is not counted as a use
  of its seqno.
- Volume.Scubed.ClaimBlocks: blocks that belong to other devices are the subject of Ownership.Pool.DevInit.
- Ownership.Pool.DevInit: says nothing about the state when it fails, as the program has ended then.
- JugglerLists.Provider.GetDevblock: the lists are sequences; the next pointers between blocks are not modelled (the
  pointer structure of the repository's other list is, in Dllarr).
- Dllarr.List.Insert: array sizes are unbounded; the check for an overflowing size is not modelled.
- Cbc.EncPlain: buffers are the same or do not overlap; partial overlap does not occur.
- Bitmap.BitSet.GetBit: only size 1, the only one in use; bitmap_setbits and wider reads are not modelled.
- Volume.Scubed.WriteToMesoblk: the old bytes around the new ones are read as one mesoblock instead of two parts.
- plmgr, paranoia levels other than the present one, and the simulations in attic.
- Probabilities of runs: the statements about randomness count words and candidates.
