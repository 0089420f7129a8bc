# A verified model of the cp2 sync engine

cp2 copies trees the way rsync does: it compares two manifests, transfers what differs as
deltas, batches or chunk streams, and can remove a source once its bytes are known to be at
the destination. This project models the parts that decide and the parts that touch bytes,
and proves what they promise:

- the two delta engines (`Rollsum`, `Signatures`, `BlockTable`, `RollsumScan`, `RollsumDelta`,
  `RollsumTheorems`, `ScanMatches`, `SelfDelta`, `Budget`, `Cdc`, `DeltaOps`, `Patch`, `Pipeline`);
- the planner (`Planner`, `PlannerTheorems`, `PlanMeaning`, `Convergence`) and the wildcard matcher (`Glob`);
- the sender's cross-file pairing and delta window (`BasisIndex`, `SenderWindow`, `SenderLoop`);
- the frame codec, the chunk stream and the receiver's write path (`Integers`, `FrameCodec`,
  `FrameReceive`, `ChunkSend`, `ChunkedFile`, `Sparse`, `ChunkTransfer`, `StreamRun`);
- the receiver's apply state and the removal of sources (`Applies`, `ReceiverState`, `RecipeRun`,
  `BatchRun`, `DeltaRun`, `CrossFile`, `MoveOff`).

Code that works step by step is a method or a class whose fields it updates, proved against a
specification function; the properties of those functions are lemmas. Concurrency is a choice
of the environment: detached signature tasks, background chunk writes and spawned applies end
in any order, given by function parameters or by separate methods that may be called at any
point. BLAKE3, the chunker, postcard and lz4 are parameters. Byte equality is claimed only
under a stated no-collision hypothesis about the stretches involved; everything else, also what
a hash in the Ack stands for and what a removal rests on, holds for every hash function.

## What the proofs found

- `glob` agrees with the wildcard relation for every pattern exactly when the text has no `*`
  byte (`Glob.GlobExact`): it compares literals before it tests for a star
  (src/sync/filter.rs:110).
- The rolling scan misses a block that is present only beyond 65536 blocks, where the index is
  masked to 16 bits (src/delta/compute.rs:621); that includes the start of the big table
  (`BlockTable.ScanFindComplete`, `BlockTable.ScanFindIncomplete`). So a file whose blocks are
  not crowded is free against its own signature for every content exactly up to 65536 blocks
  (`SelfDelta.FreeExactly`).
- The rolling scan also misses a match that a buffer boundary cuts: at the end of a full buffer an
  unmatched last window becomes literal as a whole (src/delta/compute.rs:656-672), so no window that
  starts inside it is tried. Nothing else is missed (`ScanMatches.MissesStraddle`): for every
  signature, a literal byte where a match starts has a boundary within that match. So every match of
  every source of a length is found exactly when such a source fits one buffer
  (`ScanMatches.CaughtExactly`).
- The rollsum literal budget has two checks: one inside a region and one on the total, which a
  matching short tail skips. With a budget of at least a block and a buffer (the code has 256 MiB,
  16 MiB and at most 32 KiB) the first never fires, so the total alone decides unless the tail
  matched (`Budget.WideBudget`). Whether the budget bounds the literals for every source depends
  on the length of the basis's last block only: it does exactly when that is a full block
  (`Budget.ExactExactly`); for every shorter one some accepted source has any number of literal
  bytes (`Budget.BudgetOverrun`). A source that fits one buffer never overruns
  (`Budget.ExactWhen`).
- The pending-literal flushes of `compute_delta_rollsum` (src/delta/compute.rs:440-443 and 490-493)
  never have anything to flush: a region scan always returns an empty run.
- The documentation of `indexed_candidate` says ties keep the plan-earlier entry. Among equally
  close entries the code prefers those whose stem is a proper prefix of the candidate's, shortest
  stem first, then the plan-earlier one; only if there are none does it take the plan-earliest
  whose stem extends the candidate's (`BasisIndex.IndexIsLinearScan`). So the plan-earliest tied
  entry wins exactly when no tied entry has a preferred stem (`BasisIndex.TieBreakExactly`).
- Planning again after a plan was carried out finds nothing to do, for every destination and every
  clock, exactly when every source entry settles (`Convergence.ConvergesExactly`): it is a
  directory, or existing files are ignored, or what the second check compares was preserved: for a
  special preserved times, for a link preserved times or a check by target alone, for a file a hash
  under `--checksum` and otherwise preserved times or a check by size, and no `--ignore-times`. So
  unless existing files are ignored, a special under `--no-times`, a file under `--ignore-times` and
  a file without a hash under `--checksum` are planned again for some destination and clock
  (`Convergence.EntrySettles`).
- A compressed frame above the decoder's cap is accepted by `encode` and refused by `decode`
  (`FrameReceive.EncodeDecode` has the exact condition).
- The outcome of exactly those applies is dropped that a recipe names as its basis while they are
  still waited for (src/sync/receiver.rs:336-343, `ReceiverState.ApplyState.HandleDeltaRecipe`): the
  Ack does not carry their hash and their source is not removed (`MoveOff.FinishRun`). A basis that
  came as a chunk stream is not joined and keeps its hash.
- The dropped outcome may be a failure, and then the sibling still holds its old content. A recipe
  against it is committed all the same if its copies lie in that file. What it leaves is the sender's
  source exactly when the sibling agrees with the signed file at the stretches copied, or always if a
  checksum came with it (`CrossFile.CrossCommitted`); without one, the default, every other content
  goes through (`CrossFile.StaleApplied`).
- A path that a run writes twice keeps only the handle of its last recipe
  (src/sync/receiver.rs:368); the earlier apply then ends unobserved. The receiver accepts such
  frames, so its promises are about paths touched once (`ReceiverState.ApplyState.HandleDone`).
- A hash in the Ack is that of the bytes received, while the file is cut or padded to the
  announced size. They are the same bytes because the sender requires the scanned size and the
  receiver re-checks the committed size (`MoveOff.VouchedContent` uses both).
- A file that cannot be opened or read after its start frame went out (src/sync/sender.rs:1143-1153)
  is reported and meant to be skipped, but the receiver keeps waiting for its end frame and refuses
  the next start frame (src/sync/receiver.rs:518-522). If every commit works the receiver takes the
  chunked files of a run exactly when no file but the last one breaks off
  (`StreamRun.TransferStreams` over the bytes, `StreamRun.CutExactly` with other frames between,
  `StreamRun.WindowAccepted` for the window's wire).
- A file without a useful basis whose size cannot be read again (src/sync/sender.rs:1299-1302) ends
  the whole run on the sender, and nothing else at file level does
  (`SenderWindow.AbortedExactly`, `SenderLoop.Sender.ApplyPlan`).

## Model

| member | source | states |
|---|---|---|
| Rollsum.WeakInit | src/delta/rollsum.rs:47-69 | the 4-byte-unrolled loop computes the plain byte sum and the position-weighted sum, both mod 2^32, for every window |
| Rollsum.RollKeepsState | src/delta/rollsum.rs:115-133 | rolling the packed state of any window by one byte gives the packed state of the next window |
| Rollsum.PackedValue | src/delta/rollsum.rs:95-105 | the weak value read from the packed state is the unpacked one |
| Rollsum.PackedBucket | src/delta/rollsum.rs:84-111 | the bucket read from the packed state is the unpacked one |
| Rollsum.BuildBucket | src/delta/compute.rs:380-388 | the bucket the table build derives from a weak value is the bucket a scan computes for a window with that value |
| Rollsum.Isqrt | src/delta/rollsum.rs:148-159 | Newton's loop ends, within 64 bits, at the exact floor of the root for every u64 |
| Rollsum.BlockSize | src/delta/rollsum.rs:139-145 | the block size is the clamped, rounded root |
| Rollsum.BlockSizeShape | src/delta/rollsum.rs:139-159 | block sizes are monotone in the file size, 700 exactly below 704^2 bytes, 32768 exactly from 32768^2 on, and between the largest multiple of 8 whose square fits the size |
| Signatures.TileShape | src/delta/signature.rs:203-306 | signature blocks are contiguous, full except the last, end at the end of the file, and carry the checksums of their own bytes |
| Signatures.TileOffset | src/delta/signature.rs:203-306 | block i starts at i times the block size |
| Signatures.HashWorker.Receive | src/delta/signature.rs:203-306 | however far the background worker has run, digests come back in submission order |
| Signatures.SignBatch | src/delta/signature.rs:203-306 | one buffered batch extends the tiling and keeps the sub-block remainder |
| Signatures.GenerateRollsum | src/delta/signature.rs:203-306 | for every read splitting, buffer size and worker progress the generator yields the tiling of its input and its length, and without a failed read it succeeds |
| BlockTable.BuildTable | src/delta/compute.rs:344-390 | head entries and chains hold, for every bucket, its blocks newest first |
| BlockTable.TraditionalCount | src/delta/compute.rs:344-346 | the traditional table is used exactly up to 52423 blocks |
| BlockTable.Unpack | src/delta/compute.rs:386-388 | a packed head entry gives back weak value, index and next index |
| BlockTable.ProbeBucket | src/delta/compute.rs:705-730 | a probe terminates and returns the first candidate of the bucket with the window's digest, at most 1024 candidates deep |
| BlockTable.BucketWalkIsLinearSearch | src/delta/compute.rs:344-390 | walking a bucket is searching the whole block list: hashing loses nothing |
| BlockTable.LinearFindExact | src/delta/compute.rs:705-730 | a digest is found exactly when a block with the weak value carries it and fewer than the limit of weak-equal blocks precede it |
| BlockTable.SkipIsMiss | src/delta/compute.rs:566-635 | deciding a one-block bucket from the head entry alone gives the walk's answer |
| BlockTable.ScanFindComplete | src/delta/compute.rs:566-635 | up to 65536 blocks the scan's lookup is the search over all blocks |
| BlockTable.ScanFindIncomplete | src/delta/compute.rs:566-635 | beyond 65536 blocks, for every count, block content and hash, some file has a signature of that many blocks in which the scan misses the file's own last block |
| BlockTable.FindsSound | src/delta/compute.rs:566-635 | whatever either lookup returns has the window's length, weak value and digest |
| RollsumScan.Lookup | src/delta/compute.rs:566-635 | one head load and at most one walk compute the specified lookup |
| RollsumScan.ScanRegion | src/delta/compute.rs:535-692 | the region loop, with its rolling state, scratch run and jumps, leaves the ops, position and counters of the specified region scan, and fails exactly when the region's literals exceed the budget |
| RollsumScan.LiteralRun.AddWindow | src/delta/compute.rs:535-692 | flushing the scratch array before an unmatched last window does not change the ops |
| RollsumDelta.StreamAllLiteral | src/delta/compute.rs:39-69 | without a usable basis the delta is one literal, accepted exactly within the budget, for every read splitting |
| RollsumDelta.Refill | src/delta/compute.rs:400-433 | compaction and refilling keep the window on the source and stop where a window fits or the input ends |
| RollsumDelta.TailLookup | src/delta/compute.rs:462-488 | the end-of-file probe finds exactly what a search for the last block's length would |
| RollsumDelta.ComputeDeltaRollsum | src/delta/compute.rs:317-519 | for every read splitting the engine's ops, sizes and checksum are those of the specified scan, and without a failed read it fails exactly when that scan does; under verification the checksum is the source's; for blocks below 4 GiB the ops are in wire form |
| RollsumDelta.EmitPacked | src/delta/compute.rs:317-519 | whatever the scan decides, no op is empty, no literal follows a literal, every copy length fits 32 bits, and no copy continues the one before it unless together they would not fit |
| RollsumTheorems.EmitReplay | src/delta/ops.rs:74-115 | pushing matches and literals through the merging pushes appends exactly their bytes and splits the counters |
| RollsumTheorems.RegionDecodes | src/delta/compute.rs:535-692 | a region's matches and literals decode to the source bytes it consumed |
| RollsumTheorems.ScanDecodes | src/delta/compute.rs:317-519 | across refills, jumps, unmatched last windows and the short tail the scan decodes to the source |
| ScanMatches.RegionCatches | src/delta/compute.rs:535-692 | in a region, a literal byte where a match starts lies in the last window, past its first byte |
| ScanMatches.MissesStraddle | src/delta/compute.rs:317-519 | over a whole scan, a literal byte where a match starts has a buffer boundary within that match, for every signature, source, block length, buffer and budget |
| ScanMatches.CaughtExactly | src/delta/compute.rs:317-519 | for every hash, block length of at least two and buffer, every match of every source of a length is covered by a copy exactly when that length fits the buffer |
| RollsumTheorems.RollsumRoundTrip | src/delta/compute.rs:317-519 | against the basis's own signature the ops are in bounds, matched plus literal bytes are the source length, and replaying them gives the source, for every block length, buffer size and budget |
| RollsumTheorems.BudgetOnlyRefuses | src/delta/compute.rs:500-505 | the budget never changes an accepted delta |
| RollsumTheorems.BudgetAccepts | src/delta/compute.rs:500-505 | accepted exactly when every region fits the budget alone and the total fits unless the short tail matched |
| Budget.RegionNeverRefuses | src/delta/compute.rs:535-692 | a region holds fewer literals than a block and a buffer together, so a budget of that size is never refused in the middle of a file |
| Budget.WideBudget | src/delta/compute.rs:462-505 | with such a budget a source is accepted exactly when its short tail matched or its literals fit |
| Budget.ExactWhen | src/delta/compute.rs:462-505 | the budget bounds the literal total, whatever it is, when the signature's last block is full or the source fits one buffer |
| Budget.BudgetOverrun | src/delta/compute.rs:462-505 | for every block and buffer size, every shorter last block, every such budget and every number there is a basis and a source accepted with more literal bytes than that number |
| Budget.ExactExactly | src/delta/compute.rs:462-505 | for every hash, the budget is exact for every basis with a given last block and every source exactly when that block is full |
| SelfDelta.SelfDeltaHits | src/delta/compute.rs:317-519 | a file against its own signature costs no literal byte exactly when the engine's lookups find each of its blocks, for any number of blocks |
| SelfDelta.SelfDeltaFree | src/delta/compute.rs:317-519 | up to 65536 blocks that is exactly when each block is found among the weak-equal ones |
| SelfDelta.SelfDeltaUncrowded | src/delta/compute.rs:705-730 | so it costs nothing when blocks sharing a weak value are all equal or at most 1024 |
| SelfDelta.SelfDeltaPays | src/delta/compute.rs:566-635 | a file whose last block follows 65536 or more other blocks of zeros pays literal bytes against its own signature |
| SelfDelta.FreeExactly | src/delta/compute.rs:566-635 | for every block length, buffer size and hash, all uncrowded files of a given number of blocks are free against their own signatures exactly when that number is at most 65536 |
| DeltaOps.Delta.PushCopy | src/delta/ops.rs:74-89 | merges a copy that continues the last one unless the length leaves 32 bits, and drops empty copies |
| DeltaOps.Delta.PushLiteral | src/delta/ops.rs:92-115 | merges a literal into a last literal and drops empty ones |
| DeltaOps.Delta.BytesMatched | src/delta/ops.rs:119-127 | the sum of the copy lengths |
| DeltaOps.Delta.BytesLiteral | src/delta/ops.rs:131-139 | the sum of the literal lengths |
| DeltaOps.Delta.Validate | src/delta/ops.rs:147-161 | accepts exactly the op lists whose copies, by the saturating end, lie in the announced basis size |
| DeltaOps.PushedCopy | src/delta/ops.rs:74-89 | a pushed copy appends its basis stretch to what the ops stand for, merged or not |
| DeltaOps.PushedLiteral | src/delta/ops.rs:92-115 | a pushed literal appends its bytes, merged or not |
| DeltaOps.LiteralPushAssociative | src/delta/ops.rs:92-115 | pushing a run in pieces gives the same op list as pushing it whole |
| DeltaOps.PushesStayCompact | src/delta/ops.rs:74-115 | no push creates an empty op or two literals in a row |
| DeltaOps.PushesStayPacked | src/delta/ops.rs:74-115 | a push of a copy below 2^32 bytes keeps every copy length below 2^32, and never leaves two copies that could have been one |
| DeltaOps.ReplayLength | src/delta/ops.rs:119-139 | what the ops stand for is as long as matched plus literal bytes |
| Patch.ApplyPatch | src/delta/compute.rs:750-816 | for every announced and actual basis size patching succeeds exactly when the ops validate, every non-empty copy lies in the actual basis, the output takes them and the checksum matches, and then writes exactly their replay; ops that do not validate write nothing |
| Patch.StreamCopy | src/delta/compute.rs:780-800 | a copy streamed through a bounded buffer writes exactly its stretch of the basis |
| Cdc.ForEachChunk | src/delta/signature.rs:47-97 | the pipeline that hands on each batch one scan late emits exactly the file's chunks in order, for every read splitting |
| Cdc.ChunksTile | src/delta/signature.rs:47-97 | the chunks joined in order are the file |
| Cdc.ChunksInPlace | src/delta/signature.rs:136-141 | every chunk is the stretch its offset and length name |
| Cdc.GenerateSignature | src/delta/signature.rs:171-178 | the basis signature lists the file's chunks and its length |
| Cdc.TableFromSignature | src/delta/signature.rs:324-339 | the lookup table holds exactly the digests of the signature, each with its first chunk |
| Cdc.ComputeDeltaLimited | src/delta/compute.rs:117-167 | the one-pass engine yields the ops of the file's chunks, on either path, and without a failed read succeeds exactly within the budget; under verification the checksum is the source's; for chunks below 4 GiB the ops are in wire form |
| Cdc.CdcPacked | src/delta/compute.rs:117-263 | that form: nothing empty, every copy length below 2^32, and copies joined wherever the joined length fits |
| Cdc.SignSource | src/delta/compute.rs:181-206 | the signing half yields the source's chunk signature, length and checksum |
| Cdc.ComputeDeltaFromSignatures | src/delta/compute.rs:223-263 | the matching half succeeds exactly when the unmatched bytes fit the budget and re-reads literals to the same ops |
| Cdc.BothEngines | src/delta/compute.rs:117-263 | for every basis signature, source, budget and pair of read splittings both engines fail alike or return the same ops and sizes, in wire form |
| Cdc.NothingMatches | src/delta/compute.rs:39-69 | against an empty basis the chunked ops are the single literal of the streaming path |
| Cdc.CdcRoundTrip | src/delta/compute.rs:117-263 | the delta reconstructs the source and carries exactly the unmatched bytes as literals |
| Pipeline.RollsumTransfer | src/delta/compute.rs:317-519 | sign, diff and patch: apart from failed reads it succeeds exactly when the budget check accepts, and then the output is the source |
| Pipeline.RollsumSync | src/sync/receiver.rs:1052-1057 | with the block length the receiver picks, the scratch array is always large enough for that |
| Pipeline.CdcTransfer | src/delta/compute.rs:117-167 | the same for the chunk engine, which apart from failed reads succeeds exactly when the unmatched bytes fit the budget |
| Glob.Glob | src/sync/filter.rs:103-131 | the loop with its last-star backtracking terminates with the recursive matcher's answer |
| Glob.GlobSound | src/sync/filter.rs:103-131 | whenever it answers true the wildcard relation holds, for every text |
| Glob.GlobComplete | src/sync/filter.rs:103-131 | for a text without a star byte, backtracking only to the last star loses no match |
| Glob.StarTextLosesMatch | src/sync/filter.rs:110-110 | every text with a star byte has a pattern it matches and the code rejects |
| Glob.GlobExact | src/sync/filter.rs:103-131 | code and relation agree for all patterns exactly when the text has no star byte |
| Planner.MakePlan | src/sync/planner.rs:179-298 | the loops over both manifests build the specified plan |
| PlanMeaning.DecisionExactly | src/sync/planner.rs:376-484 | on the entries and flags themselves: what is there is left exactly when both are directories, or neither is and existing files are ignored or the two agree (links in target and times, specials in kind, device and second, files in hash or in size and times, or newer under update); a current file is retouched exactly when preserved bits or times drifted and no flag keeps it out |
| PlanMeaning.ListsExactly | src/sync/planner.rs:179-298 | a source entry is in the creates exactly when nothing is there and it may be created, in the updates exactly when the last destination entry at its path is not current, in the metadata list exactly when it is to be retouched, and else in the skips |
| PlanMeaning.TasksDescribe | src/sync/planner.rs:325-338 | every task carries its list's action and its entry's path, size, kind, link target and device |
| PlanMeaning.ScopeExactly | src/sync/planner.rs:313-322 | a path is in scope of a root exactly when it is the root or lies below it, with both separators alike |
| PlanMeaning.DeletesExactly | src/sync/planner.rs:277-296 | the deletes are exactly the destination entries without a source entry, under delete and within the scope |
| PlanMeaning.LinksExactly | src/sync/planner.rs:199-364 | a transferred file links to the first member of its inode that is current with checked content, without one to the first transferred member, which is no link itself; nothing but a file with an inode is a link |
| Planner.PrePass | src/sync/planner.rs:200-217 | the pre-pass registers, per inode, the first in-sync entry with checked content |
| Planner.AssignHardlink | src/sync/planner.rs:344-364 | an inode's later members link to its representative, the first becomes it |
| PlannerTheorems.PlanPartition | src/sync/planner.rs:199-298 | every source entry has exactly one task, in the list of its action, and no delete names a source path |
| PlannerTheorems.HardlinkSound | src/sync/planner.rs:199-364 | every link target is another path of the same inode that is no link itself and is transferred or in sync with checked content |
| Convergence.EntrySettles | src/sync/planner.rs:376-484 | an entry is skipped after its own task, whatever was there and whatever the clock reads, exactly when its flags and kind say so |
| Convergence.AppliedAt | src/sync/planner.rs:179-298 | carrying out the plan's creates, updates, deletes, metadata and links in order leaves every source path with its own task's entry, or its representative's |
| Convergence.Converges | src/sync/planner.rs:179-298 | if every entry settles, carrying out the plan and planning again gives no create, update, metadata pass or delete, whatever the clock read at each write |
| Convergence.ConvergesExactly | src/sync/planner.rs:179-298 | the second plan has nothing to do for every destination and clock exactly when every source entry settles |
| BasisIndex.BasisMaps.Register | src/sync/sender.rs:1653-1680 | the maps hold exactly the earlier entries of at least half the minimum, in plan order, under their stem and its proper prefixes |
| BasisIndex.BasisMaps.Candidate | src/sync/sender.rs:1686-1720 | for a candidate of at least the minimum: nothing exactly when no earlier entry is a sibling (same directory and extension, one stem a beginning of the other, sizes within a factor of two), otherwise the preferred sibling, and none is closer in size |
| BasisIndex.IndexIsLinearScan | src/sync/sender.rs:616-649 | the indexed search answers the preferred one of all earlier entries, as a scan of them would, small ones included |
| BasisIndex.TieBreakExactly | src/sync/sender.rs:1682-1720 | the plan-earliest of the equally close entries is chosen exactly when none of them has a preferred stem |
| BasisIndex.TieBreakIsNotPlanOrder | src/sync/sender.rs:1682-1685 | an instance where the later of two equally close entries is chosen |
| SenderLoop.PairFiles | src/sync/sender.rs:616-649 | a file is paired exactly when it has content of at least 1 MiB, is no update above 10 MiB and some earlier file is its sibling; then with a closest one, the linear scan's choice, and every dependent has exactly one sender |
| SenderWindow.StepKeeps | src/sync/sender.rs:655-981 | every step of the loop and of the signature tasks keeps the invariant: queue in plan order and within the window, no orphaned open channel, every file placed and routed by size and pairing, wire order, nothing sent twice, no recipe against another file without its signature, and no signature from a reference that changed or failed |
| SenderWindow.RouteExactly | src/sync/sender.rs:774-936 | a file is batched exactly when it is at most 2 MiB, no update above 10 MiB and unpaired, and goes through the window exactly when it is neither that nor a new unpaired file above 16 MiB |
| SenderWindow.FrontIsFed | src/sync/sender.rs:774-936 | a front job that must wait is fed by a running signature task, because every queued job it could depend on has left the queue |
| SenderWindow.NeverStuck | src/sync/sender.rs:774-981 | in every state of a run the loop is finished or given up or a step is enabled, in particular the signature task being waited for, and the next file while the window has room |
| SenderWindow.FrontBasisSettled | src/sync/sender.rs:1238-1341 | when a cross-file job is drained its basis is already on the wire or reported |
| SenderWindow.StepShrinks | src/sync/sender.rs:655-981 | every step uses up work, so every interleaving terminates |
| SenderWindow.RunKeeps | src/sync/sender.rs:655-981 | every reachable state keeps the invariant, and a run has at most three steps per task |
| SenderWindow.AbortedExactly | src/sync/sender.rs:1299-1341 | the sender gives a run up exactly when a drained file falls back to a stream and its size cannot be read again |
| SenderWindow.CompleteRun | src/sync/sender.rs:544-1003 | a run that cannot go on was given up for that reason or has finished: drained in plan order, every file sent, batched or reported, no channel left open; in both cases none is put on the wire twice, every cross-file recipe follows its basis unless that was reported, and every such recipe had its basis's signature |
| SenderLoop.Sender.constructor | src/sync/sender.rs:616-649 | the loop starts from the pairing pass with every channel open |
| SenderLoop.Sender.VisitTask | src/sync/sender.rs:655-965 | one turn of the loop is the machine's visit step: the file's channels go to its job, to a signature task, or nowhere |
| SenderLoop.Sender.DrainDelta | src/sync/sender.rs:1238-1341 | draining the oldest job is the machine's drain step: a lost basis streams the file, and its dependents get the signature only after an unchanged delta with a byproduct |
| SenderLoop.Sender.FeedOne | src/sync/sender.rs:1726-1739 | a signature task ends by sending to all its dependents or dropping them |
| SenderLoop.Sender.AwaitFront | src/sync/sender.rs:1238-1250 | waiting for the oldest job ends, in whatever order the signature tasks do |
| SenderLoop.Sender.ApplyPlan | src/sync/sender.rs:544-1003 | for every outcome of every job and with signature tasks ending before any step in any order, the loop returns its error exactly when a fallback has lost its file's size and otherwise ends with the plan done and the window empty; every file ended as its outcome and its basis signature say: as a recipe exactly with a delta and the signature it waits for, reported on an error, otherwise streamed, and its dependents fed after an unchanged delta |
| Integers.LERoundTrip | src/protocol/stream.rs:36-40 | a little-endian field gives its value back |
| Integers.BERoundTrip | src/protocol/stream.rs:54-56 | the big-endian prefix gives its value back |
| FrameCodec.ChunkFrameWire | src/protocol/stream.rs:166-178 | appends one chunk frame, refused exactly above the 30-bit cap |
| FrameCodec.SendBatchRaw | src/protocol/stream.rs:192-259 | writes prefix, header block and data block, refused exactly above the cap |
| FrameCodec.TotalIsLength | src/protocol/stream.rs:196-207 | the announced total is the length of what is written after the prefix |
| FrameReceive.PrefixFields | src/protocol/stream.rs:22-56 | length and both flag bits are recovered from the prefix independently |
| FrameReceive.EncodeDecode | src/protocol/stream.rs:64-128 | a frame is packed exactly when asked to and above the threshold, with flag and size; it comes back exactly when it was not packed from more than the decoder's cap |
| FrameReceive.ReadHeader | src/protocol/stream.rs:383-451 | on any bytes a record header asks for no more than the budget; an accepted one re-encodes to the bytes read; a well-formed one is accepted |
| FrameReceive.ReceiveBatch | src/protocol/stream.rs:350-464 | on any bytes path and data buffers total at most the declared length; an accepted batch re-encodes to the bytes read; a sent batch comes back record for record, empty data without an op |
| FrameReceive.ReceiveChunk | src/protocol/stream.rs:331-348 | a chunk frame's id and data are exactly the bytes after the tag |
| FrameReceive.ReceiveFrame | src/protocol/stream.rs:311-476 | any frame the sender can send is received as sent and exactly its bytes are consumed, whatever follows; buffers stay within the declared length on any input |
| Sparse.SparseWriter.Write | src/sync/receiver.rs:1761-1786 | position plus pending zeros stays the bytes written, and pending stays below 4096 |
| Sparse.SparseWriter.BufferZeros | src/sync/receiver.rs:1747-1757 | zeros are never written: a short run stays pending, a long one becomes a hole that reads as the same zeros |
| Sparse.SparseWriter.Finish | src/sync/receiver.rs:1721-1724 | the finished file is the bytes written, cut or zero-padded to the announced size |
| Sparse.SparseWriter.SetLen | src/sync/receiver.rs:1728-1731 | on abort the file is the bytes written, cut to the given size, pending zeros included |
| Sparse.BothModes | src/sync/receiver.rs:1693-1791 | hole detection on or off leaves the same file, for every sequence of writes, preallocation and write splitting |
| ChunkSend.SendChunked | src/sync/sender.rs:1134-1232 | for every read splitting the wire carries the start frame, chunk frames whose data joins to the bytes read, and the end frame; count and hash are those of the same bytes; after a failed read it carries the start frame and chunks of a prefix of the data |
| ChunkSend.StreamChunks | src/sync/sender.rs:1154-1220 | the double-buffered loop frames each chunk while the next is read, batching does not change the byte stream, and a failed read leaves the chunks flushed so far |
| ChunkedFile.InFlight.Accept | src/sync/receiver.rs:570-634 | written bytes plus queued chunks stay the bytes received, with a bounded queue |
| ChunkedFile.InFlight.WriteOldest | src/sync/receiver.rs:604-633 | a deferred write keeps that sum and feeds the hasher in order |
| ChunkedFile.InFlight.Join | src/sync/receiver.rs:638-690 | joining the chain and finishing leaves the bytes received, cut or padded to the announced size |
| ChunkedFile.InFlight.Abort | src/sync/receiver.rs:270-295 | an aborted partial file holds exactly the bytes received |
| ChunkTransfer.ReceiveFile | src/sync/receiver.rs:217-229 | the dispatch of one chunked file's frames commits the joined chunks for every rhythm of the deferred writes, whether or not the path was written before |
| ChunkTransfer.TransferFile | src/sync/sender.rs:1134-1232 | end to end: a successful transfer leaves exactly the source when the sizes agree, both sides' hashes are that of the source, and bytes after the file are untouched |
| StreamRun.Dispatch | src/sync/receiver.rs:194-250 | a frame is refused exactly where the automaton of the chunked-file slot stops: a start while a file is in flight, a chunk or end without one, a chunk of another file, a commit that fails |
| StreamRun.ReceiveRun | src/sync/receiver.rs:194-250 | over the bytes of any sendable frames the loop gets to the end exactly when the automaton accepts them |
| StreamRun.CutExactly | src/sync/receiver.rs:511-522 | if every commit works, a run of chunked files and other frames is taken exactly when no stream follows one that broke off after its start frame |
| StreamRun.WindowAccepted | src/sync/receiver.rs:511-522 | the same for what a run of the sender's window puts on the wire, batches and control frames anywhere between |
| StreamRun.SendStreams | src/sync/sender.rs:1134-1232 | files sent one after the other leave whole streams, or after a failed read open ones of a prefix, and a file whose reads all work is whole |
| StreamRun.TransferStreams | src/sync/sender.rs:1134-1232 | end to end over the bytes, for every list of sources and read failures: if every commit works the receiver gets to the end exactly when no file but the last breaks off |
| Applies.ApplyRecipe | src/sync/receiver.rs:1301-1453 | a recipe replaces only its own path, exactly when staging, validation against the announced size, patching, checksum and commit work; it is reported as applied exactly when its metadata also applied and, under verification, the file still has the metadata's size and times, and then its hash is that of the bytes patched, which the file holds |
| Applies.Ran | src/sync/receiver.rs:1301-1453 | a finishing apply keeps every other report backed by its file |
| Applies.RanFate | src/sync/receiver.rs:1301-1453 | a finishing apply does what was due when it was spawned, and changes what is due of no other path |
| Applies.FoldedFate | src/sync/receiver.rs:1151-1166 | folding reports exactly the outcome that was due |
| Applies.Folded | src/sync/receiver.rs:1151-1166 | folding an outcome keeps the books: a path touched once is hashed, applied without a hash, skipped, dropped or in flight, and only one of these |
| Applies.Deleted | src/sync/receiver.rs:933-985 | deleting keeps the hash of every path touched once backed |
| ReceiverState.ApplyState.RunTask | src/sync/receiver.rs:1301-1453 | a spawned apply may finish at any moment; it writes what its recipe patches from the basis as it is then, and its outcome is the recipe's |
| ReceiverState.ApplyState.FoldTask | src/sync/receiver.rs:1151-1166 | an apply's outcome becomes its hash, a plain success or a skip report, and nothing else changes |
| ReceiverState.ApplyState.AwaitBasis | src/sync/receiver.rs:336-343 | a basis applied in this run is complete before it is read, its outcome and only its is dropped, and the destination is what its apply leaves |
| ReceiverState.ApplyState.HandleDeltaRecipe | src/sync/receiver.rs:325-370 | exactly a basis still waited for is joined and dropped, otherwise the destination is untouched; the new apply is spawned, and with its own file or a settled one as basis its report and content are fixed now; any path is accepted, a repeated one is recorded as such |
| ReceiverState.ApplyState.HandleBatch | src/sync/receiver.rs:383-507 | a batch of any paths is spawned as one group with one apply per job in order, what becomes of each unrepeated path is fixed on the destination before the batch, older groups are folded until at most two are outstanding, and only repeated paths count as touched again |
| ReceiverState.ApplyState.HandleFileStart | src/sync/receiver.rs:511-557 | one chunked file at a time, for any path; failed staging is reported and its chunks drained |
| ReceiverState.ApplyState.HandleFileChunk | src/sync/receiver.rs:570-634 | a chunk without a file or for another file is an error, otherwise it is appended or drained |
| ReceiverState.ApplyState.HandleFileEnd | src/sync/receiver.rs:638-708 | commits the bytes received at the announced size; under verification records their hash exactly when the committed file still has the metadata's size and times, and otherwise reports the path, which is what is due at the Ack |
| ReceiverState.ApplyState.DrainApplies | src/sync/receiver.rs:1128-1148 | every apply still waited for is joined and folded: every path whose end was fixed, it and its basis touched once, is reported and left as was due; what is outstanding belongs to paths that came again |
| ReceiverState.ApplyState.HandleDone | src/sync/receiver.rs:989-1021 | for every path touched once: its hash in the Ack is that of the bytes received, which its committed file holds at the metadata's size; it is exactly one of hashed, applied without a hash (never under verification), skipped, dropped as a joined basis, or unfinished; and where its end was fixed when its recipe was handled or its stream ended, and its basis too was touched once, which one and the content are what was due |
| RecipeRun.RunRecipes | src/sync/receiver.rs:325-370 | recipes for new paths over their own files: in whatever order the applies end, at the Ack each path is hashed (or applied without a hash) exactly when its copies lie in the announced and the actual basis, its checksum matches, staging, commit and metadata work, and under verification size and times still match; otherwise it is skipped; and it holds what its ops make of the destination of the start |
| BatchRun.TransferBatch | src/protocol/stream.rs:192-259 | end to end: a sendable batch of new files is received from the bytes and at the Ack every file is in place with exactly its bytes and reported as done, under verification with their hash |
| DeltaRun.UpdateRollsum | src/delta/compute.rs:317-519 | end to end with the rolling engine: signature of the receiver's file, delta, recipe and apply leave the source there at the Ack, with its hash under verification, unless a read fails or the budget is exceeded |
| DeltaRun.UpdateCdc | src/delta/compute.rs:117-167 | the same with the chunk engine |
| DeltaRun.CdcRight | src/delta/compute.rs:117-167 | a cross-file recipe of the chunk engine is right for the sibling whose signature it used |
| CrossFile.CrossCommitted | src/sync/receiver.rs:1301-1453 | a recipe that is right for the signed file is committed exactly when its copies lie in the receiver's basis and a checksum, if any, matches; it leaves the sender's source exactly when the basis agrees with the signed file at the stretches copied, and always with the source's checksum unless it collides |
| CrossFile.StaleApplied | src/sync/receiver.rs:336-343 | without a checksum every sibling of at least the signed length that differs from it gets a right recipe applied with a wrong result |
| MoveOff.VerificationPass | src/sync/sender.rs:287-368 | removes exactly the vouched, unchanged, own files, only under remove-source-files, and reports exactly the rest that must be reported |
| MoveOff.EntryForFirst | src/sync/sender.rs:314-316 | the entry found for a path is the first one with it, and none exactly when there is none |
| MoveOff.PassExactly | src/sync/sender.rs:287-368 | on the Ack, the manifest and the tree themselves: a file is removed exactly when asked to, not skipped, with agreeing hashes, inside the tree, of the scanned size and times, and removable; it is reported exactly when it is neither skipped nor removed, external or gone |
| MoveOff.NothingSilent | src/sync/sender.rs:287-368 | under remove-source-files every transferred file is removed, reported by one side, outside the tree or gone, and none is both removed and reported |
| MoveOff.VouchedContent | src/sync/sender.rs:287-368 | a path whose hashes agree holds the bytes received, cut or padded to the size read, with the digest of the bytes read; it holds the bytes read unless these two collide |
| MoveOff.FinishRun | src/sync/sender.rs:256-368 | over a whole run and for every hash function a source is removed only if the receiver did not report it and its first manifest entry, if any, lies inside the tree and has the size and times found; one touched once only if its bytes arrived in that sense, as they were due; a basis whose apply was joined is not removed but reported |

## Left out

- Transport, handshake, deployment, command line, progress, bandwidth limits, watching, the
  signature cache and `src/sync/linkpolicy.rs`: plumbing around the modelled core.
- `pattern_matches`, `prefix_matches` and `FilterSet::passes` (src/sync/filter.rs:29-96): short
  boolean combinations over the matcher.
- The chunker, BLAKE3, postcard and lz4: parameters, with only the assumptions their uses state
  (`Cdc.Streaming`, `Bytes.CollisionFree`, `FrameReceive.Faithful`).
- The hot and cold copies of the scan's miss path and the two head arrays (fixed and heap) are
  one loop and one array; prefetching and cost are not modelled.
- File offsets and sizes are natural numbers; 32-bit copy lengths, packed states, table entries,
  the 30-bit frame length and the saturating end in `validate` are modelled at their width. The
  "chunk too large" conversion of the chunk engine is not modelled.
- Cdc.ComputeDeltaLimited: a read error and an exceeded budget in the same run may be reported in
  the other order, because the chunks are collected before they are matched.
- RollsumDelta.ComputeDeltaRollsum: requires at most 2^32 - 1 blocks and a first block that fits
  the scratch array, which `block_size` guarantees.
- Link kinds, source paths of followed links, owners, extended attributes and access times of a
  task; metadata application copies mode and times (`Convergence.Copied`).
- Convergence.Converges: assumes unique paths, equal attributes within a hard-link group, and that
  every task succeeded. A link shows its target as it is at the end of the run.
- `stem_key`: how a path splits into parent, extension and stem is a parameter; stems are
  character sequences, so the byte-boundary test of the loop is the loop itself.
- SenderWindow.CompleteRun: batched files are recorded when they enter the batch; when the batch
  is flushed, and a small file that cannot be read then, are not modelled. A signature task
  resolves all its channels at once. The prefetch of source signatures is part of a job's outcome.
- Runs that end in a connection error: the loop is then simply cut short.
- StreamRun.TransferStreams: a commit that fails ends the run as well, so it is assumed to work; a
  file that cannot be opened counts as one whose first read fails; the loop ends with the bytes
  instead of a done frame, which the receiver takes with a file still in flight.
- RecipeRun.RunRecipes: applies end before, between and after the recipes; while the Ack is prepared
  they end in the order in which they are joined.
- FrameReceive.ReceiveFrame: record-header bytes are not charged to the budget, as in the code,
  so consumption is bounded by the input only.
- A staged file that cannot be reopened, disk errors of a deferred write, and `SeekFrom` overflow:
  the abstract file always accepts writes.
- Applies.ApplyRecipe: an apply is one step, since among paths touched once no two tasks write the
  same path and a basis is settled before it is read; backup and the directory move-aside of a
  commit are not modelled.
- ReceiverState.ApplyState.HandleDone: what the Ack says of a path that one run wrote twice, or
  wrote and then deleted, is left open; the plan gives each path one task and deletes no source
  path (`PlannerTheorems.PlanPartition`).
- ReceiverState.ApplyState.HandleDeleteRequest: a path that cannot be removed and the
  `--max-delete` limit are not modelled.
- Times are the readings the program compares, with those before 1970 already clamped to zero
  (src/platform/fs.rs:113-129).
- Links, specials, directories and metadata-only passes on the receiver, path sanitizing, and the
  byte and file counters of the Ack.
- MoveOff.FinishRun: that the sender's list is honest (each hash is that of the bytes it read, as
  many as were scanned) is a hypothesis; the engines' contracts provide it per file. Byte equality
  needs that the bytes received and the bytes read for that one path do not collide. Nothing is
  said of a path the run touched again.
