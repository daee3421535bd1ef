# Verification model of the RV32IM pipeline and cache simulator

A Dafny model of the simulator's hardware (`simulator/src/hardware`) and proofs about it. Four parts are modelled, and
then put together:

- **The five-stage pipeline.** `Isa` is a sequential RV32IM machine, written from sections 2.2 to 2.6 and chapter 7 of
  the RISC-V Unprivileged ISA manual (version 20191213). `Uop` is decode and execute, `Pipeline` one clock cycle as a
  function of what the caches and the predictor answer, `Processor` the object that updates its fields in place.
  `PipelineProof`, `PipelineTheorems`, `PipelineProgress`, `PipelineStalls`, `PipelineHazards`, `PipelineAborts` and
  `PipelineCounters` prove that it refines the machine, that it moves, when exactly it stalls and aborts, and what it
  counts; `OddJalr` is the run in which it differs. `WordBits` and `IsaTable` describe the machine's results a second
  time, by bits and instruction by instruction.
- **The cache controller.** `CacheConfig`, `CacheSet` and `Cache` are the geometry, one set and the seven-state machine;
  `CacheSetUnits` and `GeneralCaches` are the objects with their arrays. A client sees any memory as a *port*
  (`MemoryPort`): a flat byte array that performs an accepted request at some moment before it is seen done. `CacheProof`
  and `CachePort` show that a cache over a port is a port; `WriteBackNoAllocate` and `LostStore` say when exactly that
  fails; `WritePolicies` says what becomes of a store under each of the four policies, `Latency` gives exact service times,
  and `Prefetch` what the prefetcher asks for.
- **Replacement.** `Replacement` has the three policies and the contract the cache needs; `ReplacementUnits` the objects
  with their loops; `PlruTree`, `PlruHeap` and `ReplacementTheorems` the guarantees of tree pseudo-LRU; `FifoAge` and
  `CacheRuns` those of FIFO, up to every run of a cache.
- **Main memory.** `MainMemory` has SimpleMem and the single-bank DRAM controller, `MemoryUnits` the objects, `DramProof`
  and `MainPort` the timing law, command legality and functional equivalence.

`Hierarchy`, `HierarchyProof`, `HierarchyAborts` and `Liveness` compose L1-D over L2 over either main memory, with an
L1-I loading through L2: it is one flat memory, it stops only for the causes listed, and it serves every request.
`EndToEnd` matches the pipeline's accesses with the hierarchy's requests, and `JointMachine` and `JointProof` run both as
one machine, in which the caches supply every loaded byte.

Where the source's methods update fields, arrays or queues, there is a class whose methods are proved equal to a function
of the old state; the theorems are about those functions. A panic of the source is a result (`Abort`, `Failed`, or a
returned `Panic`), never a precondition. Words are naturals below 2^32 with wrap-around written out.

Where the code and the documentation differ, the model follows the code:

- The repository's README (lines 20 and 21) gives 8 and 32 stall cycles for MUL and DIV; the countdown is never compared with zero, and each
  stalls one cycle (`PipelineStalls.MExtensionStallsOneCycle`).
- The repository's README (line 33) calls SimpleMem a 15-cycle memory; a request completes in the 16th tick after it is accepted.
- The manual's JALR clears bit 0 of the target; the code does not, and stops at the alignment check of the fetch
  (`PipelineTheorems.RecoveryTarget`, `OddJalr.OddJalrTarget`).
- `write_policy.rs` lists write-back without write-allocate among the valid policies; it loses stores
  (`WriteBackNoAllocate.LossIff`, `LostStore.StoreIsLost`).

Check the whole project with `dafny verify dfyconfig.toml` (Dafny 4.11).

## Model

| member | source | states |
|---|---|---|
| `PipelineTheorems.PipelineRefinesIsa` | simulator/src/hardware/pipeline_processor/pipe.rs:519-588 | In every state reachable under any memory latencies and any predictor answers, the register file and the halt flag are those of a one-instruction-at-a-time RV32IM machine after as many instructions as have retired; x0 is 0 and none of those instructions trapped |
| `PipelineTheorems.OperandsAreSequential` | simulator/src/hardware/pipeline_processor/pipe.rs:286-354 | Whenever EXE is free to execute a real op, that op is the machine's next instruction and its rs1 and rs2 values are the machine's registers just before it, across both forwarding paths, load-use bubbles and stalls of any length |
| `PipelineTheorems.NoWrongPathBeyondExe` | simulator/src/hardware/pipeline_processor/pipe.rs:329-353 | Ops in MEM and WB are always the machine's next instructions, executed with the right results; a pending recovery belongs to a control transfer in MEM |
| `PipelineTheorems.RecoveryTarget` | simulator/src/hardware/pipeline_processor/pipe.rs:531-565 | Recovery never meets an empty MEM stage, empties ID and EXE, reports the direction the machine takes, and sends fetch to the machine's next pc if and only if the mispredicted instruction is not a JALR with an odd target |
| `OddJalr.OddJalrTarget` | simulator/src/hardware/pipeline_processor/decode.rs:109-117 | The failing case as a run: with `jalr x0, 1(x0)` at 0 the RV32IM machine stays at 0 for ever, while four cycles of the pipeline from reset, with prompt caches, resolve the target to 1, recover, and abort at the alignment check of the fetch |
| `PipelineTheorems.AbortsOnlyOnBadPrograms` | simulator/src/hardware/pipeline_processor/pipe.rs:570-582 | The stages of a cycle abort only for an illegal word, a FENCE or a misaligned address; their unwraps and the bubble assertion never fail. The ticks of the caches that end the cycle, which can stop on addresses outside main memory, are the subject of `JointProof.JointStops` |
| `PipelineAborts.AbortsIffIllegal` | simulator/src/hardware/pipeline_processor/pipe.rs:263-283 | A cycle aborts on an illegal instruction if and only if EXE has emptied, ID holds an illegal word, and no load-use stall puts its decoding off |
| `PipelineAborts.AbortsIffMisaligned` | simulator/src/hardware/pipeline_processor/pipe.rs:357-388 | A cycle aborts in MEM if and only if the op there is a halfword access at an odd address or a word access at one that is no multiple of four |
| `PipelineAborts.FetchOutcome` | simulator/src/hardware/pipeline_processor/pipe.rs:150-257 | IF aborts exactly for a misaligned address not yet accepted and for a FENCE delivered to ID; otherwise a request is sent until it is accepted and not again, and a word that has arrived goes to ID with its prediction as soon as ID is free |
| `PipelineAborts.FetchCycle` | simulator/src/hardware/pipeline_processor/pipe.rs:571-574 | The same over a whole cycle: ID is free for the word exactly if it was empty or its op has gone to EXE |
| `PipelineTheorems.AccessesInProgramOrder` | simulator/src/hardware/pipeline_processor/pipe.rs:357-388 | The accesses accepted by the data cache, with addresses, widths and values, are exactly the machine's loads and stores in program order, each once, however many registrations failed |
| `PipelineTheorems.InstructionsConserved` | simulator/src/hardware/pipeline_processor/pipe.rs:531-565 | At the end of every cycle: fetched = retired + flushed + ops in the four stages, and flush slots = 2 * (mispredictions - pending recovery) |
| `PipelineTheorems.HaltsAtFirstHaltingEcall` | simulator/src/hardware/pipeline_processor/pipe.rs:397-406 | The cycle that raises the halt flag has just retired the machine's first ECALL with a0 = 0, and leaves the machine's registers after it |
| `PipelineStalls.MExtensionStallsOneCycle` | simulator/src/hardware/pipeline_processor/pipe.rs:287-322 | Over two whole cycles of a reachable state: a multiply, divide or remainder, by name, that finds MEM free with no countdown running stays in EXE for that cycle, starting a countdown of 8 for a multiply and of 32 for the others, and is in MEM after the next, whatever the caches answer and whatever the countdown reads |
| `PipelineStalls.OthersLeave` | simulator/src/hardware/pipeline_processor/pipe.rs:287-322 | Any other op that finds MEM free is in MEM at the end of the cycle |
| `PipelineStalls.CountdownFalls` | simulator/src/hardware/pipeline_processor/pipe.rs:287-295 | While MEM is busy a running countdown falls by one in every cycle and stops at zero |
| `PipelineStalls.CountdownBelongs` | simulator/src/hardware/pipeline_processor/pipe.rs:287-322 | In every reachable state a running countdown belongs to a real multiply or divide in EXE, with no recovery pending |
| `PipelineStalls.EntersWithoutCountdown` | simulator/src/hardware/pipeline_processor/pipe.rs:263-322 | An op that enters EXE finds no countdown running |
| `PipelineCounters.CountersMean` | simulator/src/hardware/pipeline_processor/statistic.rs:16-41 | In any run the cycle counter is the number of cycles, the branch counter the number of the machine's control transfers among the instructions that have left EXE, and the misprediction counter the number of those whose prediction differs from the machine's successor as EXE computes it |
| `PipelineTheorems.RunKeeps` | simulator/src/hardware/pipeline_processor/pipe.rs:519-588 | Every cycle of every run keeps the stage invariant, by induction over the run |
| `PipelineProgress.CycleProgress` | simulator/src/hardware/pipeline_processor/pipe.rs:519-588 | A cycle retires an instruction or brings the oldest one no further from WB, and strictly nearer when the memories answer |
| `PipelineProgress.RetiresUnderWillingMemory` | simulator/src/hardware/pipeline_processor/pipe.rs:519-588 | No deadlock: in any run at least one instruction retires for every six cycles in which the memories were willing, but for the first five |
| `PipelineProof.TickKeeps` | simulator/src/hardware/pipeline_processor/pipe.rs:519-588 | One cycle keeps the invariant that ties every stage to the sequential machine, and retires exactly the op in WB |
| `PipelineProof.ForwardingCompletes` | simulator/src/hardware/pipeline_processor/pipe.rs:421-471 | After WB-then-MEM forwarding in this cycle and the next, the op held in EXE has the sequential value of every source |
| `PipelineProof.HazardChecked` | simulator/src/hardware/pipeline_processor/pipe.rs:473-507 | An op that passes the load-use check does not read what the load in MEM will write, although the check compares raw register fields |
| `PipelineHazards.HazardIff` | simulator/src/hardware/pipeline_processor/pipe.rs:473-507 | The check stalls if and only if EXE is empty, MEM holds a load of a register other than x0, and a raw register field of the word in ID names it, the word not being of the five opcodes without source fields |
| `PipelineHazards.StallsExactlyBehindLoads` | simulator/src/hardware/pipeline_processor/pipe.rs:571-582 | What is in EXE at the end of any cycle: the op that stayed there; a bubble if and only if EXE has emptied and the word in ID is behind its load; otherwise the op that was in ID |
| `PipelineHazards.RealBehindLoads` | simulator/src/hardware/pipeline_processor/pipe.rs:473-507 | In reachable states the op that enters EXE is real, and the register of a load in MEM is the rd of its instruction |
| `PipelineProof.ExecuteMeaning` | simulator/src/hardware/pipeline_processor/pipe.rs:318-327 | Decode followed by EXE gives the instruction's register write or memory access as the machine has it |
| `PipelineProof.ResolveMeaning` | simulator/src/hardware/pipeline_processor/pipe.rs:333-349 | EXE's direction and destination are the machine's successor up to the low bit of a JALR target, and an unrecovered prediction already pointed there |
| `PipelineProof.ProgressMeaning` | simulator/src/hardware/pipeline_processor/memory_access.rs:33-94 | One step of a data access: accepted at most once, and completed with the loaded value of the machine |
| `PipelineProof.RecoverKeeps` | simulator/src/hardware/pipeline_processor/pipe.rs:531-565 | Branch recovery restores the chain of fetch addresses behind the op in MEM |
| `PipelineProof.DecodeShape` | simulator/src/hardware/pipeline_processor/decode.rs:25-149 | Decoding changes only the decoded fields, reads exactly the sources of the instruction class, and depends on the registers only in those |
| `PipelineProof.InitialInvariant` | simulator/src/hardware/pipeline_processor/pipe.rs:86-143 | A new processor satisfies the invariant |
| `UopProof.AluMatchesIsa` | simulator/src/hardware/pipeline_processor/execute.rs:33-78 | For every register-register instruction and all operands the selected ALU operation computes what the RISC-V Unprivileged ISA manual defines |
| `WordBits.BitwiseMeaning` | simulator/src/hardware/pipeline_processor/execute.rs:41-44 | Bit k of the AND, OR or exclusive OR of two words is that operator applied to the two bits k, for each of the 32 bits |
| `WordBits.BitsDetermine` | simulator/src/hardware/pipeline_processor/execute.rs:41-44 | Two words with the same bits are the same word, so the statements by bits fix the results |
| `WordBits.ShiftMeaning` | simulator/src/hardware/pipeline_processor/execute.rs:36-42 | Bit k of a shifted word is the bit s places away, with zeros moving in, or copies of bit 31 in the arithmetic shift |
| `IsaTable.InstructionWrites` | simulator/src/hardware/pipeline_processor/decode.rs:25-149 | What each of the instructions writes, one row for each by its name: bits, comparisons, sums, exact products, quotients with remainders, sign and zero extensions, link addresses; and which write nothing |
| `UopProof.SignedProduct` | simulator/src/hardware/pipeline_processor/execute.rs:45-56 | MULH and MUL together are the exact 64-bit signed product, which does not overflow the host type |
| `UopProof.MixedProduct` | simulator/src/hardware/pipeline_processor/execute.rs:45-56 | MULHSU and MUL together are the exact signed-by-unsigned product |
| `UopProof.UnsignedProduct` | simulator/src/hardware/pipeline_processor/execute.rs:45-56 | MULHU and MUL together are the exact unsigned product |
| `UopProof.SignedDivision` | simulator/src/hardware/pipeline_processor/execute.rs:57-76 | DIV and REM recombine to the dividend modulo 2^32 for all operands, exactly except in the overflow case, with truncation toward zero and the zero-divisor results of section 7.2 |
| `UopProof.UnsignedDivision` | simulator/src/hardware/pipeline_processor/execute.rs:57-76 | DIVU and REMU: dividend = quotient * divisor + remainder with remainder < divisor, and the zero-divisor results |
| `UopProof.LoadedValueMatchesIsa` | simulator/src/hardware/uop.rs:104-130 | Materializing loaded bytes is the sign or zero extension of the little-endian value |
| `Processor.PipelineProcessor.Tick` | simulator/src/hardware/pipeline_processor/pipe.rs:519-588 | The object's fields after a cycle, and its abort, are those of the cycle function of which the theorems speak |
| `Processor.PipelineProcessor.RecoverBranch` | simulator/src/hardware/pipeline_processor/pipe.rs:531-565 | In-place recovery: fetch restarted, stages flushed by depth, flag cleared |
| `Processor.PipelineProcessor.ResolveDataHazards` | simulator/src/hardware/pipeline_processor/pipe.rs:421-471 | In-place forwarding into the op in EXE, WB first and MEM last |
| `Processor.PipelineProcessor.StageWb` | simulator/src/hardware/pipeline_processor/pipe.rs:391-418 | In-place write-back: register file, halt flag and retired count; everything else unchanged |
| `Processor.PipelineProcessor.ProgressTransaction` | simulator/src/hardware/pipeline_processor/memory_access.rs:33-60 | The transaction's state machine, in place |
| `Processor.PipelineProcessor.SendAccess` | simulator/src/hardware/pipeline_processor/memory_access.rs:66-86 | Registration of an access: kept for a retry when refused, waiting or complete when accepted |
| `Processor.PipelineProcessor.StageMem` | simulator/src/hardware/pipeline_processor/pipe.rs:357-388 | In-place MEM stage |
| `Processor.PipelineProcessor.StageExe` | simulator/src/hardware/pipeline_processor/pipe.rs:286-354 | In-place EXE stage, with the countdown and the branch resolution |
| `Processor.PipelineProcessor.StageDecode` | simulator/src/hardware/pipeline_processor/pipe.rs:263-283 | In-place ID stage |
| `Processor.PipelineProcessor.StageFetch` | simulator/src/hardware/pipeline_processor/pipe.rs:150-257 | In-place IF stage with its three request states |
| `Processor.PipelineProcessor.CloseCycle` | simulator/src/hardware/pipeline_processor/pipe.rs:571-582 | Hazard check, ID, IF and the bubble, in the source's order |
| `Processor.Simulate` | simulator/src/hardware/pipeline_processor/pipe.rs:519-588 | A whole run of the object from reset, up to the first cycle that raises the halt flag or aborts: its registers, halt flag and retired count are those of the run of the cycle function over the inputs used, and of the sequential machine after that many instructions; a panic is that run's |
| `EndToEnd.RequestMeansAccess` | simulator/src/hardware/pipeline_processor/memory_access.rs:97-106 | The request built for an access lies in the address space, changes a flat memory as the access does, and delivers the bytes the access reads |
| `EndToEnd.StoreThenLoad` | simulator/src/hardware/pipeline_processor/memory_access.rs:97-106 | A store and then a load of the same bytes on a flat memory give back the stored value, cut down to the width and extended |
| `EndToEnd.PipelineOverHierarchy` | simulator/src/hardware/pipeline_processor/pipe.rs:357-388 | For any run of the pipeline and any run of the hierarchy that has accepted the requests the pipeline sent: once the last one is done, whether it hit at once or had to wait, the hierarchy presents the sequential machine's memory, and the answer is the bytes the machine reads |
| `JointMachine.TickAgrees` | simulator/src/hardware/pipeline_processor/pipe.rs:357-388 | A cycle in which the data cache supplies the loaded bytes is a cycle of the pipeline, if those are the bytes of the flat memory |
| `JointMachine.TickIgnoresLog` | simulator/src/hardware/pipeline_processor/memory_access.rs:33-94 | In such a cycle nothing is read of the flat memory: two processors that differ only in it do the same |
| `JointProof.JointTickKeeps` | simulator/src/hardware/pipeline_processor/pipe.rs:519-588 | One cycle of processor and hierarchy together, the caches answering MEM and then moving in any way: L1 has accepted exactly the requests the pipeline sent, the processor registers only when its last request is done, and the processor goes through one of the pipeline's own runs |
| `JointProof.SendsWhenIdle` | simulator/src/hardware/pipeline_processor/memory_access.rs:66-86 | An access not yet sent is accepted in the first cycle in which it finds L1-D idle, and not before |
| `JointProof.LeavesWhenDone` | simulator/src/hardware/pipeline_processor/memory_access.rs:33-60 | An access that waits leaves MEM in the first cycle in which L1-D has it done, and not before |
| `JointProof.JointIsSequential` | simulator/src/hardware/pipeline_processor/pipe.rs:519-588 | End to end with nothing assumed of either side: in every run of the processor on a new hierarchy of supported configurations, registers and halt flag are the sequential machine's after the retired instructions, L1 has accepted exactly the requests of the machine's accesses in order, and whenever none is waited for the hierarchy presents the machine's memory |
| `JointProof.JointStops` | simulator/src/hardware/pipeline_processor/pipe.rs:519-588 | Such a run stops only for an illegal word, a FENCE or a misaligned address in the processor, or at an event of the hierarchy for one of the causes of `HierarchyAborts`; never because of a request of the processor |
| `CacheConfig.GeometryFactors` | simulator/src/hardware/mem/general_cache/config.rs:19-63 | A configuration is accepted if and only if its sizes factor into powers of two and a number of ways, and the bit widths measure the factors, whose product is the total size |
| `CacheConfig.SplitMeaning` | simulator/src/hardware/mem/general_cache/mod.rs:221-228 | Tag, index and offset are the quotients and remainders by the block size and the number of sets |
| `CacheConfig.SplitThenJoin` | simulator/src/hardware/mem/general_cache/mod.rs:422-448 | Rebuilding an address from its tag and index gives the base of its block; with the offset, the address |
| `CacheConfig.JoinThenSplit` | simulator/src/hardware/mem/general_cache/mod.rs:421-448 | Splitting a rebuilt address gives back tag, index and offset: the split is a bijection |
| `CacheConfig.AlignedRequestFits` | simulator/src/hardware/mem/general_cache/mod.rs:238-256 | A request that passes the alignment check lies within one block |
| `CacheConfig.AlignmentIff` | simulator/src/hardware/mem/general_cache/mod.rs:238-256 | For blocks of at least four bytes the check passes exactly the naturally aligned requests of a power of two bytes that are no longer than a block |
| `CacheConfig.UpperBlockAligned` | simulator/src/hardware/mem/general_cache/mod.rs:238-256 | A block of a cache with blocks no larger passes the alignment check of the next level |
| `Replacement.EvictContract` | simulator/src/hardware/mem/general_cache/replacement_policy.rs:6-19 | For every policy: eviction succeeds, reports full exactly when every way is valid, and then and only then clears the victim's bit |
| `Replacement.RandomDrawsAnyWay` | simulator/src/hardware/mem/general_cache/replacement_policy.rs:49-60 | Every way of a full set can be the random policy's victim, by the draw of its own number |
| `Replacement.InsertContract` | simulator/src/hardware/mem/general_cache/replacement_policy.rs:81-84 | Inserting a way that is not valid makes it valid and keeps FIFO's queue free of duplicates |
| `Replacement.PromoteContract` | simulator/src/hardware/mem/general_cache/replacement_policy.rs:168-182 | Promotion changes no valid bit |
| `Replacement.FullFifoQueue` | simulator/src/hardware/mem/general_cache/replacement_policy.rs:94-103 | FIFO's unwrap of the popped way cannot fail when every way is valid |
| `ReplacementTheorems.PlruProtects` | simulator/src/hardware/mem/general_cache/replacement_policy.rs:168-205 | With 2^k valid ways, after a promotion no history of promotions of fewer than k distinct other ways, in any order and number, makes the policy evict the promoted way |
| `ReplacementTheorems.PlruBoundIsSharp` | simulator/src/hardware/mem/general_cache/replacement_policy.rs:168-205 | The bound cannot be improved: from any tree, some k other ways promoted once each make it evict the promoted way |
| `ReplacementTheorems.PlruSweepsAllWays` | simulator/src/hardware/mem/general_cache/replacement_policy.rs:158-205 | From any tree, 2^k rounds of evict and insert pick every way exactly once, whatever extra promotions of the way just filled come in between |
| `ReplacementTheorems.FifoOrder` | simulator/src/hardware/mem/general_cache/replacement_policy.rs:81-103 | From any full set, rounds of evict and insert take the ways in the order of the queue |
| `ReplacementTheorems.FifoRoundRobin` | simulator/src/hardware/mem/general_cache/replacement_policy.rs:73-103 | From an empty set, round n of evict and insert takes way n modulo the number of ways |
| `FifoAge.FifoEvictsOldest` | simulator/src/hardware/mem/general_cache/replacement_policy.rs:73-103 | After any sequence of evictions, promotions, invalidations and insertions of ways that are not valid, a new FIFO policy whose ways are all valid gives up the way inserted longest ago |
| `FifoAge.OperationKeepsAge` | simulator/src/hardware/mem/general_cache/replacement_policy.rs:73-103 | Each operation keeps the queue strictly ordered by the time of last insertion, newest in front |
| `FifoAge.InvalidateContract` | simulator/src/hardware/mem/general_cache/replacement_policy.rs:86-89 | Invalidation makes its way invalid and nothing else, and keeps the queue free of duplicates |
| `CacheRuns.ActionMoves` | simulator/src/hardware/mem/general_cache/mod.rs:234-543 | Under all four write policies and any answers from below, a tick or a registration does to each set's policy exactly the evictions and promotions of its lookup or the insertion of its refill, and a refill inserts a way that the policy has given up |
| `CacheRuns.MissTakesOldest` | simulator/src/hardware/mem/general_cache/mod.rs:234-543 | In every run of a new FIFO cache of any geometry and write policy, a lookup that misses in a set the policy calls full gives up the way refilled longest ago |
| `PlruHeap.PromotionIsUse` | simulator/src/hardware/mem/general_cache/replacement_policy.rs:168-182 | The leaf-to-root loop over the heap array is the promotion of a functional binary tree |
| `PlruHeap.WalkIsVictim` | simulator/src/hardware/mem/general_cache/replacement_policy.rs:191-204 | The root-to-leaf loop over the heap array finds that tree's victim |
| `PlruTree.Protected` | simulator/src/hardware/mem/general_cache/replacement_policy.rs:168-205 | On the tree: evicting a used way takes uses of at least as many distinct other ways as the tree is high |
| `PlruTree.ThreatSucceeds` | simulator/src/hardware/mem/general_cache/replacement_policy.rs:168-205 | On the tree: that many uses suffice |
| `PlruTree.SweepIsInjective` | simulator/src/hardware/mem/general_cache/replacement_policy.rs:168-205 | On the tree: different rounds of a sweep pick different ways |
| `PlruTree.SweepFinds` | simulator/src/hardware/mem/general_cache/replacement_policy.rs:168-205 | On the tree: every way is picked in some round |
| `ReplacementUnits.ScanInvalid` | simulator/src/hardware/mem/general_cache/replacement_policy.rs:50-55 | The scan finds the first invalid way, or none |
| `ReplacementUnits.RandomRP.Evict` | simulator/src/hardware/mem/general_cache/replacement_policy.rs:49-60 | In-place eviction of the random policy |
| `ReplacementUnits.FifoRP.Evict` | simulator/src/hardware/mem/general_cache/replacement_policy.rs:94-103 | In-place eviction of FIFO, popping the back of the queue |
| `ReplacementUnits.FifoRP.Invalidate` | simulator/src/hardware/mem/general_cache/replacement_policy.rs:86-89 | In-place invalidation: the queue keeps its other ways in order |
| `ReplacementUnits.PseudoLruRP.Promote` | simulator/src/hardware/mem/general_cache/replacement_policy.rs:168-182 | In-place promotion: the climbing loop |
| `ReplacementUnits.PseudoLruRP.Evict` | simulator/src/hardware/mem/general_cache/replacement_policy.rs:184-205 | In-place eviction: scan, then the descending loop |
| `CacheSetUnits.CacheSetUnit.TagCompare` | simulator/src/hardware/mem/general_cache/cache_set.rs:34-51 | The search loop finds the first way holding the tag; on a miss the policy chooses, and the write-back flag is full and dirty; nothing else changes |
| `CacheSetUnits.CacheSetUnit.ReadBlock` | simulator/src/hardware/mem/general_cache/cache_set.rs:57-67 | Reading copies the way's bytes and promotes it |
| `CacheSetUnits.CacheSetUnit.WriteBlock` | simulator/src/hardware/mem/general_cache/cache_set.rs:69-84 | Writing replaces the way's slice of the flat array, marks it dirty and promotes it; other ways keep their bytes |
| `CacheSetUnits.CacheSetUnit.WriteBlockClean` | simulator/src/hardware/mem/general_cache/cache_set.rs:92-102 | The same without the dirty bit |
| `CacheSetUnits.CacheSetUnit.InsertBlock` | simulator/src/hardware/mem/general_cache/cache_set.rs:104-118 | A refill sets bytes, tag and valid bit, clears the dirty bit and tells the policy |
| `CacheSetUnits.Overwrite` | simulator/src/hardware/mem/general_cache/cache_set.rs:73-76 | Overwriting one slice of the flat array changes that way's block and no other |
| `CacheProof.TickKeepsSane` | simulator/src/hardware/mem/general_cache/mod.rs:296-543 | For all four write policies and any policy, prefetcher and answers from below: every tick keeps distinct tags, dirty implies valid, clean blocks equal to the level below, a well-formed policy (FIFO's queue holding exactly the policy-valid ways once each), and nothing dirty and no write-back under write-through; and a completed load carries the presented bytes while the presented memory changes only by a store being committed, if and only if the tick is not the end of an allocation over a valid way whose block differs from the level below |
| `CacheProof.FillKeepsSane` | simulator/src/hardware/mem/general_cache/mod.rs:498-510 | The end of an allocation leaves the presented memory unchanged if and only if the way it replaces was invalid or a copy of the level below |
| `CacheProof.TickKeepsConsistent` | simulator/src/hardware/mem/general_cache/mod.rs:296-543 | While the policy tracks the set, every tick but a write-back, no-write-allocate store miss around a full set keeps that so: the policy counts only valid ways, and under write-back and under write-allocate all of them but the way in flight (under write-through without allocation a store miss may drop a valid way from the count); and then every tick has the effect above |
| `CacheProof.TickKeeps` | simulator/src/hardware/mem/general_cache/mod.rs:296-543 | The whole invariant, with the policy bits as in the row above, and the effect, with no step excluded for write-back with allocate and both write-through policies |
| `CacheProof.PerformKeeps` | simulator/src/hardware/mem/general_cache/lower_memory.rs:22-35 | When the level below performs what the cache sent, the presented memory stays as it is, except for a store sent around the cache, whose bytes it then takes |
| `CacheProof.PenaltyKeeps` | simulator/src/hardware/mem/general_cache/mod.rs:512-520 | The lookup that follows a refill finds its block, so a request causes at most one refill |
| `CacheProof.FillKeeps` | simulator/src/hardware/mem/general_cache/mod.rs:498-510 | A refill replaces nothing but a copy, and leaves the presented memory unchanged |
| `CacheProof.VictimIsClean` | simulator/src/hardware/mem/general_cache/cache_set.rs:41-50 | A victim that is not written back is invalid or equals the level below |
| `CacheProof.NewCachePresents` | simulator/src/hardware/mem/general_cache/mod.rs:197-218 | A new cache satisfies the invariant and presents the memory below it |
| `CacheView.HitReadsView` | simulator/src/hardware/mem/general_cache/mod.rs:344-362 | The bytes of a load hit are the presented memory's |
| `CacheView.HitStoresView` | simulator/src/hardware/mem/general_cache/mod.rs:364-388 | A store hit changes the presented memory by exactly its bytes |
| `CacheView.FillInvisible` | simulator/src/hardware/mem/general_cache/cache_set.rs:104-118 | Inserting a copied block over an invalid or copied way changes no presented byte |
| `CachePort.RegisterIsPortStep` | simulator/src/hardware/mem/general_cache/mod.rs:234-291 | A request is accepted exactly when the machine is idle, and is from then on outstanding on the memory presented before; a hit is done when registration returns |
| `CachePort.TickIsPortStep` | simulator/src/hardware/mem/general_cache/mod.rs:296-543 | For every client with a request outstanding, a tick is nothing or that request being performed |
| `CachePort.OtherRegisterIsInvisible` | simulator/src/hardware/mem/general_cache/mod.rs:234-291 | A load registered by another client changes nothing for a waiting client |
| `Cache.RegisterIsLookup` | simulator/src/hardware/mem/general_cache/mod.rs:283-286 | The two ticks inside a registration are one lookup of the new request |
| `GeneralCaches.GeneralCache.Tick` | simulator/src/hardware/mem/general_cache/mod.rs:296-543 | The object with its sets of arrays: its state after a tick, and its panic, are those of the tick function |
| `GeneralCaches.GeneralCache.TryRegister` | simulator/src/hardware/mem/general_cache/mod.rs:234-291 | The object's registration, with the two ticks at once |
| `GeneralCaches.GeneralCache.Lookup` | simulator/src/hardware/mem/general_cache/mod.rs:323-482 | The object's lookup: tag comparison, hit or miss handling, prefetcher hooks |
| `GeneralCaches.GeneralCache.HitLookup` | simulator/src/hardware/mem/general_cache/mod.rs:344-392 | The object's hit path: load completed, or store written and propagated |
| `GeneralCaches.GeneralCache.MissLookup` | simulator/src/hardware/mem/general_cache/mod.rs:395-457 | The object's miss path: around, write-back or allocate |
| `GeneralCaches.GeneralCache.RefillTick` | simulator/src/hardware/mem/general_cache/mod.rs:498-510 | The object's allocate state |
| `GeneralCaches.GeneralCache.WriteBackTick` | simulator/src/hardware/mem/general_cache/mod.rs:485-495 | The object's write-back state |
| `GeneralCaches.GeneralCache.Suggest` | simulator/src/hardware/mem/general_cache/mod.rs:475-480 | Suggested prefetches are queued in order, each once |
| `GeneralCaches.GeneralCache.constructor` | simulator/src/hardware/mem/general_cache/mod.rs:197-218 | A new object is the new controller state, over sets that share no array |
| `GeneralCaches.InvariantFreesVictim` | simulator/src/hardware/mem/general_cache/cache_set.rs:104-118 | Under every write policy the way to be refilled is one the policy has given up, so the object's arrays stay well formed |
| `GeneralCaches.LowerMemoryTransaction.Progress` | simulator/src/hardware/mem/general_cache/lower_memory.rs:22-35 | Sending until accepted, then waiting until done; finished exactly when done is seen |
| `WritePolicies.WriteBackHit` | simulator/src/hardware/mem/general_cache/mod.rs:370-388 | Under the two write-back policies, by name, a store that hits is done when registration returns, asks nothing of the level below, changes its bytes of its block and nothing else, and leaves its way dirty |
| `WritePolicies.WriteThroughHit` | simulator/src/hardware/mem/general_cache/mod.rs:370-388 | Under the two write-through policies, by name, a store that hits is not done when registration returns, changes its bytes of its block, leaves its way clean, and is being sent below |
| `WritePolicies.DoneMeansPerformedBelow` | simulator/src/hardware/mem/general_cache/mod.rs:522-543 | A store sent below, as a write-through commit or around the cache, is done only once the level below has performed that same store, and no set changes until then |
| `WritePolicies.AroundMiss` | simulator/src/hardware/mem/general_cache/mod.rs:405-413 | Under the two policies without write-allocate, by name, a store that misses goes around the cache and changes no block, tag, valid or dirty bit |
| `WritePolicies.AllocatingMiss` | simulator/src/hardware/mem/general_cache/mod.rs:395-457 | Under the two write-allocate policies, by name, a store that misses starts a refill for itself, and no block has changed yet |
| `WritePolicies.RefillEndsInHit` | simulator/src/hardware/mem/general_cache/mod.rs:484-520 | In every run such a refill either goes on or has come to the lookup of its request, which finds the block |
| `WriteBackNoAllocate.TransparentIff` | simulator/src/hardware/mem/general_cache/mod.rs:296-543 | In any run of a new cache under any write policy, a tick does what its clients may see if and only if it is not the end of an allocation over a valid way whose block differs from the level below |
| `WriteBackNoAllocate.DecidedAtLookup` | simulator/src/hardware/mem/general_cache/cache_set.rs:34-51 | An allocation that a lookup starts is of that kind if and only if the policy had a way to spare at the lookup, that way was dirty, and its block differed from the level below |
| `WriteBackNoAllocate.LossIff` | simulator/src/hardware/mem/general_cache/mod.rs:395-510 | From the lookup to the end of its allocation, whatever happens in between: the presented memory changes at the end if and only if that guard held at the lookup and the block differed |
| `WriteBackNoAllocate.CountKeptIff` | simulator/src/hardware/mem/general_cache/cache_set.rs:34-51 | For every policy and state, a lookup keeps the policy's count of the valid ways if and only if it is not a write-back, no-write-allocate store miss in a full set; nothing is lost in that step |
| `WriteBackNoAllocate.GivesUpVictim` | simulator/src/hardware/mem/general_cache/mod.rs:405-413 | Such a store leaves a valid way that the policy no longer counts |
| `WriteBackNoAllocate.GivenUpWayIsTaken` | simulator/src/hardware/mem/general_cache/cache_set.rs:41-50 | The next miss in that set takes that way with no write-back, dirty or not |
| `LostStore.StoreIsLost` | simulator/src/hardware/mem/general_cache/mod.rs:405-413 | A concrete run from a new cache that loses an acknowledged store, for every memory and every stored word |
| `Latency.ServiceIsExact` | simulator/src/hardware/mem/general_cache/mod.rs:484-537 | Over SimpleMem, the cache ticked first, for blocks inside the memory: a hit is done at registration; a miss with a clean victim takes exactly penalty + 19 cycles, with a dirty victim penalty + 36, a write-through hit or a store around the cache 17, a refilled write-through store 17 more; and never earlier |
| `Latency.FirstLoadTakes` | simulator/src/hardware/mem/general_cache/mod.rs:197-218 | The first load of a new cache built with a miss penalty is done after exactly that penalty + 19 cycles, for any policies and prefetcher |
| `Latency.Exchange` | simulator/src/hardware/mem/simple_mem.rs:44-94 | One request to SimpleMem: accepted in the first cycle, performed in the sixteenth |
| `DramProof.BankRefuses` | simulator/src/hardware/mem/simple_dram/bank.rs:60-134 | A bank opens a row only when idle, closes one only when one is open, and reads or writes only the open row, each in at least one cycle; everything else it refuses |
| `DramProof.DramTickKeeps` | simulator/src/hardware/mem/simple_dram/mod.rs:176-242 | No bank command is ever illegal, no countdown underflows, and a tick brings a pending request exactly one tick nearer its end |
| `DramProof.RunToDoneLaw` | simulator/src/hardware/mem/simple_dram/mod.rs:176-242 | A request takes tCL, tRCD + tCL or tRP + tRCD + tCL by the state of the bank, is performed on the data, and counts as one hit or one miss |
| `DramProof.DramTimeLaw` | simulator/src/hardware/mem/simple_dram/mod.rs:176-242 | Hits, misses and total ticks of any list of requests from any resting controller |
| `DramProof.FreshDramTimeLaw` | simulator/src/hardware/mem/simple_dram/mod.rs:176-242 | From a new controller: misses = 1 + adjacent requests in different rows, hits = the rest, ticks = n tCL + misses tRCD + (misses - 1) tRP |
| `MainPort.DramReplacesSimpleMem` | simulator/src/hardware/mem/simple_dram/mod.rs:127-148 | For any list of requests within bounds the DRAM controller gives the answers and the final contents of SimpleMem |
| `MainPort.SimpleServesFlat` | simulator/src/hardware/mem/simple_mem.rs:72-94 | SimpleMem serves each request in 16 ticks and as a flat byte array, and counts loads and stores |
| `MainPort.SimpleMemTakes` | simulator/src/hardware/mem/simple_mem.rs:44-68 | SimpleMem refuses by assertion exactly the addresses from 0x40000 on, and accepts the others unless a request is pending |
| `MainPort.MainTickIsPortStep` | simulator/src/hardware/mem/simple_mem.rs:72-94 | A tick of either main memory is nothing or the outstanding request being performed |
| `MemoryUnits.SimpleDram.Tick` | simulator/src/hardware/mem/simple_dram/mod.rs:176-242 | The object's tick: decide, advance the bank, complete |
| `MemoryUnits.SimpleDram.Decide` | simulator/src/hardware/mem/simple_dram/mod.rs:183-225 | The command phase, with the hit and miss counters |
| `MemoryUnits.SimpleDram.TryRegister` | simulator/src/hardware/mem/simple_dram/mod.rs:152-170 | Registration: out of bounds refused by assertion, busy refused, accepted otherwise |
| `MemoryUnits.SimpleDram.CompletePending` | simulator/src/hardware/mem/simple_dram/mod.rs:127-148 | Completion copies bytes out of, or into, the data array |
| `MemoryUnits.Bank.AdvanceOneCycle` | simulator/src/hardware/mem/simple_dram/bank.rs:136-185 | The bank's countdowns and events |
| `MemoryUnits.Bank.Read` | simulator/src/hardware/mem/simple_dram/bank.rs:100-114 | A READ is legal only on the open row |
| `MemoryUnits.SimpleMem.Tick` | simulator/src/hardware/mem/simple_mem.rs:72-94 | The object's countdown and completion |
| `MemoryUnits.SimpleMem.TryRegister` | simulator/src/hardware/mem/simple_mem.rs:44-68 | The object's registration and access counters |
| `Prefetch.PredictsNextBlock` | simulator/src/hardware/mem/general_cache/prefetcher.rs:24-46 | The next-line prefetcher predicts exactly one address: the base of the block after the one accessed, and only in the last block of the address space the last address; the null prefetcher predicts nothing |
| `Prefetch.DemandQueuesPrediction` | simulator/src/hardware/mem/general_cache/mod.rs:465-481 | After a demand lookup, hit or miss, load or store, the queue holds what it held and every predicted address, and nothing else |
| `Prefetch.NextLineIsQueued` | simulator/src/hardware/mem/general_cache/mod.rs:465-481 | Once a client's request has been accepted under the next-line prefetcher, the base of the block after its own is queued, unless its block is the last |
| `Prefetch.NewCachePrefetches` | simulator/src/hardware/mem/general_cache/mod.rs:197-218 | So it is with the first request of a cache built with that prefetcher |
| `Prefetch.IdleStartsPrefetch` | simulator/src/hardware/mem/general_cache/mod.rs:300-314 | An idle cache starts the oldest queued prefetch, as a load of a whole block |
| `Prefetch.TickKeepsSuggestions` | simulator/src/hardware/mem/general_cache/mod.rs:303-314 | In every run the queued prefetches and the one in the machine are whole blocks at such addresses |
| `Prefetch.OverrunIsLastAddress` | simulator/src/hardware/mem/general_cache/mod.rs:357-359 | The only prefetch that can run past its block is the one of the last address |
| `HierarchyProof.HierarchyIsFlat` | simulator/src/hardware/mem/general_cache/mod.rs:231-291 | Composition: in any run of a new hierarchy of supported configurations, with any interleaving, latencies, prefetching and instruction-cache traffic in L2, a finished request carries the answer of a plain byte array that performed all accepted requests in order, and the hierarchy presents that array |
| `HierarchyProof.EventIsPortStep` | simulator/src/hardware/mem/general_cache/lower_memory.rs:22-35 | Any single event is, for the processor, nothing or its outstanding request being performed |
| `HierarchyProof.EmittedRequestAligned` | simulator/src/hardware/mem/general_cache/mod.rs:238-256 | Every request a cache emits passes the alignment check of a lower cache with blocks at least as large |
| `HierarchyProof.CpuEvent` | simulator/src/hardware/mem/general_cache/mod.rs:234-291 | The processor's request is accepted exactly when L1 is idle, on the memory it saw before |
| `Liveness.EveryRequestIsServed` | simulator/src/hardware/mem/general_cache/mod.rs:231-543 | Liveness through both levels: after finitely many events of any run in which L1, L2 and main memory tick again and again, in any order, and the instruction cache in the end registers no more loads, an accepted request of the processor is done, unless an event stopped the hierarchy |
| `Liveness.L1ComesToRest` | simulator/src/hardware/mem/general_cache/mod.rs:296-543 | In such a run L1 becomes idle, whatever it, L2 and main memory were doing at the start |
| `Liveness.TickNearer` | simulator/src/hardware/mem/general_cache/mod.rs:296-543 | A tick of a busy cache that is not waiting for the level below brings it strictly nearer the end of its job; one that waits in vain changes nothing |
| `HierarchyAborts.RunStopsOnlyForCause` | simulator/src/hardware/mem/general_cache/mod.rs:238-256 | A run of a new hierarchy is stopped only by a misaligned registration from outside, an address outside main memory, or a prefetch of the very last address |
| `HierarchyAborts.AbortsOnlyForCause` | simulator/src/hardware/mem/general_cache/mod.rs:238-256 | One event that stops the hierarchy is a misaligned registration from outside, an address outside main memory, or a prefetch running past its block; no request that one level makes of the next ever fails its alignment check |

## Left out

- Predictor internals: predictions are arbitrary inputs of a cycle, so every theorem holds for any predictor.
- Bit slicing of instruction words (`simulator/src/riscv`): a fetched word is a decoded instruction with its raw register
  fields; immediates come already extended.
- ELF loading, command line, JSON reports, the runner's loop around the clock, and the runtime programs: input and output.
- Self-modifying code and coherence between L1-I and L1-D: the design does not provide it. The program is a function of
  the pc, and L1-I appears in the hierarchy as loads that compete for L2.
- Random numbers: an arbitrary natural given to each eviction.
- Hit and miss counters of the cache, prefetch counters and floating-point rates: a refilled request is counted twice by
  design of the code, and rates add nothing.
- Shared request cells: a client's finished buffer is an entry of the `done` map of the memory that served it, and a
  client has one request outstanding at a time.
- `Processor.PipelineProcessor.ProgressTransaction`: the transaction is a value held by the processor object, not an
  object of its own; the source owns it exclusively.
- `CacheSetUnits.CacheSetUnit.TagCompare`: the set holds its replacement policy as a value; the policies' own objects and
  loops are `ReplacementUnits`, proved equal to the same functions.
- `GeneralCaches.GeneralCache.Tick`: the memory below is represented by its answer in that tick; `Hierarchy` connects the
  controller states of the two levels.
- `GeneralCaches.LowerMemoryTransaction.Progress`: the transaction's class stands beside `GeneralCache`, which holds the
  transaction of its state as a value and does not use the class.
- `Liveness.EveryRequestIsServed`: asks that the instruction cache stops registering loads at L2 in the end. L2
  serves whoever finds it idle, and the instruction cache of the model may register whenever it likes.
- `JointProof.JointIsSequential`: the instruction side is still an input of each cycle, with the words of a fixed program;
  L1-I takes part only through its loads at L2.
- `PipelineTheorems.AccessesInProgramOrder`: the data bus performs an access when it accepts it; `JointProof` proves that the
  hierarchy, which performs it later, gives the same answers.
- `HierarchyProof.HierarchyIsFlat`: speaks of runs that were not stopped; `HierarchyAborts` says what stops one.
- The pc wraps around at 2^32, as the release build does; a debug build would stop there.
- Pseudo-LRU over a number of ways that is not a power of two: the source's constructor refuses it, and the theorems
  about trees ask for 2^k ways.
