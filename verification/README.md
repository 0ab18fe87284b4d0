# Proofs about a set of systems and algorithms programs

The repository holds course programs. This project models the ones with the most
intricate state and proves what they are for. Every module is named after what it
models; each group below says what its main results are.

**The two MIPS simulators** (`CS311/project2`, `CS311/project3`). `Sequential` is the
one-instruction-at-a-time simulator, `Pipeline` the five-stage one with forwarding,
load-use stalls, a one-bit branch predictor and squashing, and `PipelineCpu` the class
whose methods, one per stage, change the fields of the CPU state as the source does.
`Refinement` holds the invariant that ties what is in flight to the sequential run;
`PipelineTheorems` draws the consequences for whole runs: after every cycle the
registers and the memory are the sequential ones, and the run ends exactly when the
schedule computed from the sequential run says so. Branches are included.
`BranchingPrograms` has conditions for this that can be read off a program, and
`StraightLine` the cycle count of straight-line programs outright. `FalseForwarding` is
about runs that go wrong: up to which instruction they are right, what that one computes
there, and when the difference shows. `AluAgreement` says for which operands the two
simulators compute the same. `ControlPath` is about every program, jumps included, and
every register file: which instructions get past decode, in what order, and what they
alone write. `PipelineLimits` has concrete programs on which the two simulators part.

**The assembler** (`CS311/project1`, with the decoder and loader of `project2`).
`Encoding` is the bit strings, `Assembler` the two passes on statements and tokens,
`AssemblerRuns` what assembled branches, jumps and `la` do on the simulator,
`AssemblerPasses` the scan loops over a file and the loader.

**The allocator** (`CS230/malloclab`). `MallocHeap` defines the heap invariant over the
words of the heap: tiling, boundary tags, segregated lists threaded through the free
blocks. `MallocLists`, `MallocBlocks`, `MallocCuts`, `MallocSteps`, `MallocPlacing` and
`MallocMoving` prove what single steps do to it, `MallocAllocator` is the allocator
working in place on an array of words, `MallocTrace` runs whole traces, `MallocLimits` has
calls with which the allocator cannot deal. Addresses are word numbers from the start of the heap, whose first byte is taken to be aligned to 8.

**The cache simulator** (`CS311/project4`). `CacheModel` is one set with its aging
counters, `Recency` ties it to a list of tags ordered by last use, `CacheSimulator` has
the address arithmetic, runs over traces and the class.

**The STCP transport** (`EE323/lab3`). `Stcp` has the reactions of one endpoint,
`StcpSystem` two endpoints over two reliable channels with every interleaving of events,
`StcpTheorems` what every run guarantees with 32-bit sequence numbers, `StcpEndpoint` the
class with the handshake and the body of the control loop.

**Sorting and tables** (`EE205`). `StableSort` defines stable sorting and shows that
there is one result; `MergeSort` has both merge sorts, `QuickSort` the four quicksorts on
wrapping indices, `HashTable` the chained table of counted words.

**The router's queue** (`EE323/lab4`). `PendingPackets` has the packets that wait for an
ARP reply.

Things the proofs brought to light, with the code taken as it is:

- The forwarding unit hands on the ALU output of a store or branch as the value of its
  `rt` (`CS311/project3/run.c:83-108`): `FalseForwarding.ExecutesSeen` says for every run
  what the first instruction that gets such a value computes, and
  `FalseForwarding.WrongValueShows` when the registers then differ.
  `PipelineLimits.StoreForwardsItsAddress` is a program.
- `ori`, `slt` and `srl` differ between the simulators; `AluAgreement` has the exact
  operands, and `FalseForwarding.WrongValueShows` covers runs that come to them.
- A `jal` writes its link in decode, before a branch in front of it is resolved
  (`CS311/project3/run.c:196-201`), and the link stays when it is squashed:
  `PipelineLimits.SquashedLinkStays`. Nothing else that is squashed writes a register or memory:
  `ControlPath.OnlyRetirementWrites`.
- When a jump, or a branch taken as predicted, has its target outside the text, fetching
  goes on at `IF_PC` instead of ending (`CS311/project3/run.c:253-277`):
  `PipelineTheorems.HaltsOnTimeExactly` and `ControlPath.PathConnected` say exactly when.
- `mm_malloc` of more than 2^32 - 16 bytes rounds to a block of 0 or 8 bytes and searches
  in front of the lists: `MallocLimits.OversizedSearch`.
- `mm_realloc` may leave behind a block too small for any list, and uses the result of
  `mm_malloc` without looking: `MallocLimits.NothingRemains` and
  `MallocLimits.NowhereToMove` build heaps where that happens. It returns the old block
  when a free neighbour is too small: `MallocAllocator.Allocator.Realloc`.
- The comment on `mm_free` says that freeing does nothing, that on `mm_malloc` that it
  moves the break; the model follows the code.

## Model

| member | source | states |
|---|---|---|
| Mips.ReadAfterWrite | CS311/project3/util.c:116-174 | a word just written is read back from either region, and a word that shares no byte with it is unchanged |
| MainMemory.MemoryRegions.Read32 | CS311/project3/util.c:116-138 | finds the word exactly when all its bytes lie in one region, and then returns the little-endian word |
| MainMemory.MemoryRegions.Write32 | CS311/project3/util.c:151-174 | the memory with that word replaced, or unchanged with a failure when no region holds it |
| Sequential.SequentialCpu.ExecuteRegister | CS311/project2/run.c:43-74 | the register forms write only the destination, with the value of the operation, and jr only the pc |
| Sequential.SequentialCpu.ExecuteImmediate | CS311/project2/run.c:75-100 | the immediate forms write only rt, with the value of the operation |
| Sequential.SequentialCpu.ProcessInstruction | CS311/project2/run.c:34-115 | one call takes the machine one step, and the run bit clears exactly when the pc leaves the text |
| Sequential.SequentialCpu.Go | CS311/project2/util.c:215-230 | the machine after its last instruction |
| Sequential.StoppedAfter | CS311/project2/run.c:113-114 | a machine whose pc has left the text stays as it is |
| AluAgreement.ArithmeticAgrees | CS311/project3/run.c:110-160 | the ALU returns what the sequential simulator writes, for an instruction and operands, if and only if the stated condition holds (only slt, srl and ori have one) |
| AluAgreement.ShiftRightLogicalAgrees | CS311/project3/run.c:147-148 | the masked arithmetic shift is the logical one if and only if the top bit is clear or the shift is by one |
| AluAgreement.OrImmediateAgrees | CS311/project3/run.c:120-121 | or with the zero-extended and with the sign-extended operand agree if and only if the operand is not negative or the register's upper half is all ones |
| AluAgreement.LoadUpperAgrees | CS311/project3/run.c:118-119 | the mask of lui changes nothing |
| Refinement.StartInvariant | CS311/project3/util.h:109-169 | the start state satisfies the in-flight invariant |
| Refinement.OperandExact | CS311/project3/run.c:83-108 | what forwarding supplies for a register, right or wrong, in a run that has been right up to this instruction |
| Refinement.CycleStep | CS311/project3/run.c:434-449 | one cycle keeps the in-flight invariant if nothing has gone wrong up to the instruction it decodes |
| PipelineTheorems.InvariantAlways | CS311/project3/run.c:434-449 | the invariant holds after any number of cycles of every job that refines |
| PipelineTheorems.CycleByCycle | CS311/project3/run.c:374-449 | after every cycle registers and memory are those of the sequential machine, and WB and MEM hold its own next instructions |
| PipelineTheorems.InvariantBefore | CS311/project3/run.c:434-449 | the invariant holds until an instruction is handed its operands, whatever goes wrong with that one and after it |
| PipelineTheorems.HaltsOnTime | CS311/project3/util.c:182-210 | the run ends in exactly the cycle that the schedule gives for the last instruction, with the sequential result, and stays there |
| PipelineTheorems.HaltsOnTimeExactly | CS311/project3/run.c:253-277 | the run ends when its last instruction is due if and only if that instruction does not leave the text as predicted while there is something to fetch where fetching resumes |
| PipelineTheorems.RetiredByItsCycle | CS311/project3/run.c:418-432 | an instruction has been written back if and only if its cycle in the schedule has come, so at most one is in a cycle, in program order |
| PipelineTheorems.StopsAtLimit | CS311/project3/util.c:182-188 | the bound is reached in the cycle that writes back the last instruction allowed, with the sequential registers; the memory may hold the store of the next one already |
| FalseForwarding.ExecutesSeen | CS311/project3/run.c:83-108 | in every run that is right before it, an instruction is in EX in its cycle and computes the value of the operands that forwarding hands over; all that it leaves is right if and only if that is the value due, and with the right operands it is, but for slt, srl and ori |
| FalseForwarding.RetiresSeen | CS311/project3/run.c:374-432 | right or wrong, it is written back on time with that value, or that address for a load or store |
| FalseForwarding.WrongValueShows | CS311/project3/run.c:314-432 | once an arithmetic instruction is written back the registers are the sequential ones if and only if its value is the one due |
| BranchingPrograms.CheckableRefines | CS311/project3/run.c:83-449 | a program with branches refines if on no path one of the two instructions behind a store or branch reads its rt, and its branches stay in the text |
| StraightLine.SuitableRefines | CS311/project3/run.c:83-449 | a straight-line program over the shared instructions, with no read of a stored register in the next two slots, meets the refinement's condition |
| StraightLine.EachOnItsCycle | CS311/project3/run.c:162-166 | instruction k has been written back if and only if cycle k + 5, plus the load-use pairs before it, has come |
| StraightLine.StraightLineRun | CS311/project3/run.c:434-449 | n instructions with h load-use pairs take exactly n + h + 4 cycles and leave the sequential result |
| PipelineLimits.StoreForwardsItsAddress | CS311/project3/run.c:83-108 | a program of two instructions on which the pipeline doubles an address instead of a value |
| PipelineLimits.SquashedLinkStays | CS311/project3/run.c:196-201 | a program on which the link of a jal that is squashed stays in register 31 for good |
| PipelineLimits.BranchOutRunsOn | CS311/project3/run.c:253-277 | a program whose last branch leaves the text and whose pipeline runs on |
| Pipeline.PipeStaysInText | CS311/project3/run.c:253-277 | every stage is empty or holds an instruction of the text |
| ControlPath.PathConnected | CS311/project3/run.c:168-277 | in every run of every program, an instruction that gets past decode is the successor chosen by the one before, if and only if that successor is in the text; the first is at the start |
| ControlPath.PathKept | CS311/project3/run.c:434-449 | the invariant behind it, for any number of cycles |
| ControlPath.KeptStep | CS311/project3/run.c:434-449 | one cycle, squashing or not, keeps that invariant, and what enters EX is what was expected |
| ControlPath.WrittenBackIsPath | CS311/project3/run.c:218-231 | what WB counts is exactly what passed EX, in the same order, so nothing squashed reaches MEM or WB |
| ControlPath.OnlyRetirementWrites | CS311/project3/run.c:374-432 | in every run, a cycle changes a register only to the result of the instruction of the path that it writes back, in its destination, or to the link of a jal in ID; and memory only to what the store of the path in MEM stores |
| ControlPath.ResultOfPath | CS311/project3/run.c:374-416 | that result is what the ALU put out for this instruction, or the word that was in memory at that address |
| ControlPath.JumpsToRegister | CS311/project3/run.c:168-216 | the successor that a jr chooses is the register that decode read for it |
| PipelineCpu.Cpu.PipelineInit | CS311/project3/run.c:218-251 | the pipe shifts, or stalls behind a hazard, the signals reset, and the forwarding latches are filled |
| PipelineCpu.Cpu.WbStage | CS311/project3/run.c:418-432 | the state after write-back |
| PipelineCpu.Cpu.ResolveBranch | CS311/project3/run.c:387-404 | a misprediction flips the predictor, redirects the fetch unit and empties three stages |
| PipelineCpu.Cpu.MemStage | CS311/project3/run.c:374-416 | the state after the memory stage |
| PipelineCpu.Cpu.ForwardUnit | CS311/project3/run.c:83-108 | the operand that forwarding selects |
| PipelineCpu.Cpu.RunAlu | CS311/project3/run.c:110-160 | the ALU result |
| PipelineCpu.Cpu.ExStage | CS311/project3/run.c:314-372 | the state after the execute stage |
| PipelineCpu.Cpu.HazardDetectionUnit | CS311/project3/run.c:162-166 | the hazard flag is raised for a load whose destination the instruction names |
| PipelineCpu.Cpu.Decoder | CS311/project3/run.c:168-216 | the decode latch, the link register and the redirect of the fetch unit |
| PipelineCpu.Cpu.IdStage | CS311/project3/run.c:279-312 | the state after decode |
| PipelineCpu.Cpu.IfStage | CS311/project3/run.c:253-277 | the state after fetch |
| PipelineCpu.Cpu.ProcessInstruction | CS311/project3/run.c:434-449 | the fields after one cycle are those of the cycle function |
| PipelineCpu.Cpu.Go | CS311/project3/util.c:182-210 | cycles until the run ends by itself or the bound on the number of instructions is reached, whichever comes first, and no longer |
| Encoding.ReadBits | CS311/project2/util.c:104-107 | reading back the digits of a value gives its low bits |
| Encoding.FieldIs | CS311/project2/parse.c:25-54 | shift and mask recover the digits between two others |
| Encoding.Vtob | CS311/project1/main.c:91-99 | the buffer holds the low digits of the value and a terminator, and nothing after it changes |
| Encoding.DecodeEncode | CS311/project2/parse.c:18-58 | decoding an emitted word returns its fields, cut to their widths |
| Assembler.FirstPassLayout | CS311/project1/main.c:465-534 | the first pass gives every label the address of the statement after it, and ends at the end of the text |
| Assembler.SecondPassLayout | CS311/project1/main.c:557-638 | the second pass emits the words of every statement at the offset that the first pass counted |
| Assembler.TextSizeRight | CS311/project1/main.c:536-545 | text_size is four times the number of words emitted |
| Assembler.LabelAddress | CS311/project1/main.c:76-89 | looking up a label in the second pass gives the address of the next word emitted after it, also behind one-word and two-word la |
| AssemblerPasses.FirstFileOf | CS311/project1/main.c:465-534 | over a file with its data before its text, the first pass computes the data list and then the text layout |
| AssemblerPasses.DataThenRest | CS311/project1/main.c:477-503 | the data section advances the data pointer by four for each value and leaves the text untouched |
| AssemblerPasses.TwoPass.FirstRead | CS311/project1/main.c:465-534 | the first scan loop, for either value of its uninitialised flag |
| AssemblerPasses.TwoPass.SecondRead | CS311/project1/main.c:557-638 | the second scan loop appends the words of the text |
| AssemblerPasses.TwoPass.Assemble | CS311/project1/main.c:458-659 | the whole object file: the two sizes, the words of the program, the data |
| AssemblerPasses.Load | CS311/project2/cs311.c:32-93 | the loader recovers from the object file an instruction table with the decoding of every word, and leaves the words of text and data in memory, and nothing else changed |
| AssemblerRuns.BranchLands | CS311/project1/main.c:276-304 | an assembled branch whose label is in reach goes to the label's address exactly when it is taken |
| AssemblerRuns.JumpLands | CS311/project1/main.c:306-321 | an assembled j or jal goes to its label, and jal keeps the address after it |
| AssemblerRuns.LaLoads | CS311/project1/main.c:597-635 | the words of la leave the address in the register if and only if its low half is below 0x8000 or its upper half all ones |
| AssemblerPasses.LaLoadsData | CS311/project1/main.c:597-635 | the la of a name of the data section always loads its address, in an object file that fits the buffer |
| MallocHeap.LogMonotone | CS230/malloclab/mm.c:34-44 | the class of a size is monotone |
| MallocHeap.ClassRange | CS230/malloclab/mm.c:34-44 | a block of at least 16 bytes has a list |
| MallocLists.InsertOne | CS230/malloclab/mm.c:46-65 | insert puts the block second in its list, or first in an empty one, with correct links |
| MallocLists.DeleteOne | CS230/malloclab/mm.c:67-81 | delete takes the block out of its list; the back link of a new head is left stale and never read |
| MallocLists.InsertElsewhere | CS230/malloclab/mm.c:46-65 | insert leaves the lists of the other classes alone |
| MallocLists.DeleteElsewhere | CS230/malloclab/mm.c:67-81 | delete leaves the lists of the other classes alone |
| MallocBlocks.InsertStep | CS230/malloclab/mm.c:46-65 | inserting a free block that is in no list keeps the heap consistent |
| MallocBlocks.DeleteStep | CS230/malloclab/mm.c:67-81 | deleting a listed free block keeps the heap consistent |
| MallocBlocks.ReadTag | CS230/malloclab/mm.c:15-24 | header and footer give the block's size and whether it is allocated |
| MallocCuts.RecutStep | CS230/malloclab/mm.c:94-117 | rewriting the tags of a stretch of unlisted blocks as one or two blocks keeps the heap consistent |
| MallocCuts.GrowStep | CS230/malloclab/mm.c:122-135 | the new block and epilogue after sbrk keep the heap consistent and all payloads |
| MallocSteps.JoinStep | CS230/malloclab/mm.c:83-120 | merging a block with its free neighbours leaves no two adjacent free blocks |
| MallocSteps.NextNeighbour | CS230/malloclab/mm.c:21-23 | the block arithmetic finds the next block, its tag and the footer |
| MallocSteps.PrevNeighbour | CS230/malloclab/mm.c:21-24 | the footer before a block finds the previous block and its tag |
| MallocPlacing.ScanIsComplete | CS230/malloclab/mm.c:137-153 | if no list from the class of the size on has a large enough block, no free block is large enough |
| MallocPlacing.AdjustedHolds | CS230/malloclab/mm.c:208-214 | the rounded size has room for request and tags if and only if the request does not exceed 2^32 - 16 |
| MallocPlacing.PlaceSplit | CS230/malloclab/mm.c:155-170 | splitting a free block makes its front live and its rest a listed free block |
| MallocPlacing.LiveApart | CS230/malloclab/mm.c:202-227 | payloads of different live blocks share no word |
| MallocPlacing.FirstHeap | CS230/malloclab/mm.c:182-192 | the prologue, the empty lists and the epilogue are a consistent heap |
| MallocMoving.PayloadWrite | CS230/malloclab/mm.c:202-227 | whatever a user writes into a live block, the heap stays consistent |
| MallocMoving.SpaceNegative | CS230/malloclab/mm.c:250-261 | the signed difference of the sizes is negative if and only if the block must grow by at most 2^31 |
| MallocMoving.RemainderHasClass | CS230/malloclab/mm.c:271-273 | the block left behind by growth in place has a list if and only if it has 16 bytes |
| MallocMoving.MoveBoundary | CS230/malloclab/mm.c:266-273 | moving the boundary into the free neighbour keeps the heap and the block's words |
| MallocMoving.SizesAddUp | CS230/malloclab/mm.c:122-135 | the sizes of the blocks add up to the bytes obtained from sbrk |
| MallocMoving.AllFreed | CS230/malloclab/mm.c:232-239 | with nothing live, the heap between prologue and epilogue is one free block |
| MallocAllocator.Allocator.CalculateClass | CS230/malloclab/mm.c:34-44 | the loop computes the class |
| MallocAllocator.Allocator.Insert | CS230/malloclab/mm.c:46-65 | the words after insert |
| MallocAllocator.Allocator.Delete | CS230/malloclab/mm.c:67-81 | the words after delete |
| MallocAllocator.Allocator.JoinNext | CS230/malloclab/mm.c:94-100 | the second case of coalesce |
| MallocAllocator.Allocator.JoinPrev | CS230/malloclab/mm.c:101-108 | the third case, with the address recovered from a stale footer |
| MallocAllocator.Allocator.JoinBoth | CS230/malloclab/mm.c:109-117 | the fourth case |
| MallocAllocator.Allocator.Coalesce | CS230/malloclab/mm.c:83-120 | exactly the block and its free neighbours become one listed free block, no two free blocks are adjacent, and live blocks keep place and words |
| MallocAllocator.Allocator.Sbrk | CS230/malloclab/memlib.c:58-69 | the break moves unless the heap would outgrow its store |
| MallocAllocator.Allocator.Extend | CS230/malloclab/mm.c:122-135 | fails exactly when sbrk refuses, otherwise yields a free block of at least that size and keeps the heap |
| MallocAllocator.Allocator.Fit | CS230/malloclab/mm.c:137-153 | NULL if and only if no free block is large enough, otherwise the first one in class and list order |
| MallocAllocator.Allocator.Place | CS230/malloclab/mm.c:155-175 | the block becomes live with less than 16 bytes to spare, the rest a free block, the heap stays valid |
| MallocAllocator.Allocator.Init | CS230/malloclab/mm.c:182-196 | succeeds exactly when the store is large enough, and leaves a valid heap with nothing live |
| MallocAllocator.Allocator.Malloc | CS230/malloclab/mm.c:202-227 | NULL if and only if the request is 0 or neither a free block nor sbrk can serve it; otherwise a new aligned live block with room for the request, every live block keeps place and words, and the heap grows only if nothing fits |
| MallocAllocator.Allocator.Free | CS230/malloclab/mm.c:232-239 | exactly this block stops being live, the others keep place and words, and the heap is coalesced |
| MallocAllocator.Allocator.GrowInPlace | CS230/malloclab/mm.c:263-275 | the block gets exactly the new size and keeps its words |
| MallocAllocator.Allocator.Relocate | CS230/malloclab/mm.c:277-283 | the words move to a new block and the old one is freed |
| MallocAllocator.Allocator.Realloc | CS230/malloclab/mm.c:244-286 | the old words are preserved, other blocks untouched, and the result is large enough if and only if no free neighbour was too small and the growth was at most 2^31 |
| MallocTrace.Replay | CS230/malloclab/mdriver.c:569-684 | over any trace of mm_malloc, mm_realloc and mm_free: a request is refused exactly when no block can be had, each step changes only its own block, a resized block keeps its words, every block that is held is as large as asked, apart from the others and holds what its owner wrote; when all is released the heap is one free block |
| MallocLimits.OversizedSearch | CS230/malloclab/mm.c:205-223 | a request for more than 2^32 - 16 bytes starts its search in front of the heap or at the header of the prologue |
| MallocLimits.NothingRemains | CS230/malloclab/mm.c:262-274 | after mm_init and one mm_malloc, a call of mm_realloc that leaves a free block of 0 bytes |
| MallocLimits.NowhereToMove | CS230/malloclab/mm.c:276-282 | after mm_init and two of mm_malloc, a call of mm_realloc for which mm_malloc returns NULL |
| CacheModel.AfterProper | CS311/project4/main.c:79-118 | after any accesses the valid ways form a prefix with distinct tags and distinct ages |
| CacheModel.EvictsTheWorst | CS311/project4/main.c:119-157 | a miss on a full set evicts the one line that the policy ranks worst, and writes it back exactly when it is dirty |
| Recency.HoldsMostRecent | CS311/project4/main.c:65-157 | after any trace a set holds the most recently used tags, with ages in the order of last use |
| Recency.ResidentIffRecent | CS311/project4/main.c:65-157 | a tag is resident if and only if it is among the k most recently used |
| Recency.Inclusion | CS311/project4/main.c:65-157 | what is resident with few ways is resident with more |
| CacheSimulator.GetBit | CS311/project4/main.c:19-35 | the position of the highest set bit, -1 for 0 and 0 for negative numbers |
| CacheSimulator.IndexMeaning | CS311/project4/main.c:68-77 | the shifts compute the set number and the tag of the address's block |
| CacheSimulator.TagAndIndexIdentify | CS311/project4/main.c:68-77 | tag and set number identify the block |
| CacheSimulator.SetsAreIndependent | CS311/project4/main.c:79-157 | each set evolves by its own accesses only |
| CacheSimulator.CacheInclusion | CS311/project4/main.c:65-157 | LRU inclusion for the whole cache over every trace |
| CacheSimulator.MoreWaysMoreHits | CS311/project4/main.c:65-157 | read hits and write hits never decrease as ways are added |
| CacheSimulator.EveryAccessCounted | CS311/project4/main.c:143-149 | every access is counted once as a hit or a miss, and write-backs never exceed misses |
| CacheSimulator.Simulator.AgeSet | CS311/project4/main.c:81-83 | every valid line gets older by one |
| CacheSimulator.Simulator.FindWay | CS311/project4/main.c:85-118 | the way of the hit or the first empty way |
| CacheSimulator.Simulator.FindVictim | CS311/project4/main.c:119-141 | the victim of the policy |
| CacheSimulator.Simulator.AccessLine | CS311/project4/main.c:79-157 | the set and the counters after an access |
| CacheSimulator.Simulator.AccessCache | CS311/project4/main.c:65-157 | the whole cache and its counters after an access |
| StcpSystem.ConnectedStep | EE323/lab3/transport.c:175-306 | any event at either end of a connected system keeps the invariant |
| StcpSystem.InvariantStep | EE323/lab3/transport.c:61-306 | any event, handshake included, keeps the invariant |
| StcpTheorems.WrapRun | EE323/lab3/transport.c:211-238 | a run with 32-bit sequence numbers and a 16-bit window is the image of the same run with unbounded ones |
| StcpTheorems.DeliversPrefix | EE323/lab3/transport.c:225-235 | what an application is given is always a prefix of what the other one wrote |
| StcpTheorems.ClosedIsConsumed | EE323/lab3/transport.c:239-277 | everything a closed endpoint wrote, and its FIN, has been consumed by its peer |
| StcpTheorems.QuietMeansClosed | EE323/lab3/transport.c:239-301 | when both applications have closed and both channels are empty, both ends are closed |
| StcpTheorems.FlowControlled | EE323/lab3/transport.c:202-213 | the bytes in flight and the window never exceed 3072 together |
| StcpTheorems.WindowIsRest | EE323/lab3/transport.c:236-238 | window and unacknowledged bytes make up 3072 before the FIN; afterwards the cap absorbs exactly its one number |
| StcpTheorems.NeverStuck | EE323/lab3/transport.c:186-303 | once both applications have closed, either both ends are closed or the transport can act |
| StcpTheorems.ProgressIsBounded | EE323/lab3/transport.c:186-303 | and it can act only finitely often |
| StcpEndpoint.Transport.ActiveOpen | EE323/lab3/transport.c:77-90 | the SYN and the state of the active end |
| StcpEndpoint.Transport.ActiveSynAck | EE323/lab3/transport.c:92-113 | the last step of the active handshake |
| StcpEndpoint.Transport.PassiveSyn | EE323/lab3/transport.c:117-140 | the answer to a SYN, and the refusal of anything else |
| StcpEndpoint.Transport.PassiveAck | EE323/lab3/transport.c:142-150 | the last step of the passive handshake |
| StcpEndpoint.Transport.SendData | EE323/lab3/transport.c:198-214 | the segment, sequence number and window after sending |
| StcpEndpoint.Transport.ReceiveAck | EE323/lab3/transport.c:222-255 | delivery, acknowledgement, window and state on an ACK |
| StcpEndpoint.Transport.ReceiveFin | EE323/lab3/transport.c:257-285 | acknowledgement and state on a FIN |
| StcpEndpoint.Transport.CloseRequested | EE323/lab3/transport.c:288-301 | the FIN and the state after a close request |
| StcpEndpoint.Transport.LoopBody | EE323/lab3/transport.c:186-303 | one pass of the control loop for any set of simultaneous events |
| StcpEndpoint.PassIsSteps | EE323/lab3/transport.c:186-303 | a pass is the single events one after the other, each possible at its turn |
| StableSort.StableSortIsUnique | EE205/MergeSort/msort.c:81-86 | for a total preorder there is one stably sorted arrangement |
| StableSort.RearrangedIsPermutation | EE205/MergeSort/msort.c:4-66 | a stable arrangement is a permutation |
| MergeSort.TakeLeft | EE205/MergeSort/msort.c:17-24 | taking from the left run keeps the merge sorted and stable |
| MergeSort.TakeRight | EE205/MergeSort/msort.c:25-32 | taking from the right run, when it is strictly smaller, does too |
| MergeSort.Merge | EE205/MergeSort/msort.c:4-66 | the range becomes the stable merge of its two sorted runs, the rest is unchanged |
| MergeSort.MergeSortRange | EE205/MergeSort/msort.c:68-79 | the range becomes its stably sorted arrangement |
| MergeSort.Sort | EE205/MergeSort/msort.c:81-86 | msort sorts stably |
| MergeSort.RunsInOrder | EE205/MergeSort/msort_opt.c:79-80 | when the skip test succeeds the two runs are already merged |
| MergeSort.MergeSortSkipping | EE205/MergeSort/msort_opt.c:68-84 | skipping merges changes nothing |
| MergeSort.InsertionSort | EE205/MergeSort/msort_opt.c:88-106 | the insertion sort sorts stably, for any length |
| MergeSort.SortOptimised | EE205/MergeSort/msort_opt.c:108-116 | the optimised msort sorts stably |
| MergeSort.SortBoth | EE205/MergeSort/msort_opt.c:108-116 | the two programs leave the same array |
| QuickSort.Quick.Partition | EE205/QuickSort/quick.c:36-56 | the pivot ends in its place, with n or n + 1 comparisons counted |
| QuickSort.Quick.ScanUp | EE205/QuickSort/quick.c:41-45 | the first scan stops at the first element not below the pivot or at the end, and counts once too often there |
| QuickSort.Quick.ScanDown | EE205/QuickSort/quick.c:46-50 | the second scan stops at the last element not above the pivot |
| QuickSort.Quick.MedianOf | EE205/QuickSort/quick.c:21-34 | the ends and the middle are in order afterwards |
| QuickSort.Quick.FirstSort | EE205/QuickSort/quick.c:58-64 | sorts, terminates although the index below 0 wraps, and counts at most (n*n + 3n - 4)/2 |
| QuickSort.Quick.LastSort | EE205/QuickSort/quick.c:66-73 | the same with the last element as pivot |
| QuickSort.Quick.RandomSort | EE205/QuickSort/quick.c:75-84 | the same for every choice of rand |
| QuickSort.Quick.MedianSort | EE205/QuickSort/quick.c:86-94 | the same with the median of three, and at most 3n more |
| QuickSort.Quick.Sort | EE205/QuickSort/quick.c:96-131 | every choice of pivot leaves a sorted permutation, also of an empty array |
| QuickSort.BoundSplits | EE205/QuickSort/quick.c:58-64 | however a partition splits n elements, the bound covers both sides |
| QuickSort.CountSides | EE205/QuickSort/quick.c:59-63 | the wrapping indices describe exactly the two sides |
| HashTable.AddNode | EE205/PasswordBlacklist/blacklist.c:130-137 | a node with a new word at either end of its bucket keeps the table right |
| HashTable.CountNode | EE205/PasswordBlacklist/blacklist.c:116-124 | raising a count keeps the table right |
| HashTable.Blacklist.Resize | EE205/PasswordBlacklist/blacklist.c:75-102 | the table doubles exactly when it is full, and every count survives |
| HashTable.Blacklist.Insert | EE205/PasswordBlacklist/blacklist.c:104-141 | the count of exactly this word goes up by one, each word has one node, in its bucket, and the table is never full |
| HashTable.Blacklist.AllNodes | EE205/PasswordBlacklist/blacklist.c:143-162 | lists every word once with its count, in just the room that was allocated |
| HashTable.CountWords | EE205/PasswordBlacklist/blacklist.c:228-247 | after any words the table is the multiset of them |
| PendingPackets.WithPacketWaits | EE323/lab4/sr_arpcache.c:200-257 | queueing adds exactly this packet, and keeps one request for each address |
| PendingPackets.WithoutWaits | EE323/lab4/sr_arpcache.c:269-288 | unlinking a request removes exactly its packets |
| PendingPackets.NextInSweep | EE323/lab4/sr_arpcache.c:27-31 | after a request is handled, the saved next request is still there, and less is left to do |
| PendingPackets.Router.Lookup | EE323/lab4/sr_arpcache.c:166-192 | the last valid entry of the address |
| PendingPackets.Router.QueueReq | EE323/lab4/sr_arpcache.c:200-257 | the packet is in front of those that wait for the address, in the old request or a new last one |
| PendingPackets.Router.Insert | EE323/lab4/sr_arpcache.c:263-308 | the request of the address leaves the queue, the others stay in order, and the first free entry, if there is one, takes the address |
| PendingPackets.CachedIsFound | EE323/lab4/sr_arpcache.c:166-192 | the address is then found, unless an older entry for it stands further back, and others are found as before |
| PendingPackets.Router.HandleReply | EE323/lab4/sr_router.c:528-567 | every packet that waited is sent exactly once, in list order, with one hop less unless the router made it |
| PendingPackets.Router.HandleReq | EE323/lab4/sr_arpcache.c:34-160 | not yet due, sent again, or after five tries released with all its packets, whose senders are told, by a frame or a queued message, where there is a route |
| PendingPackets.Router.Sweep | EE323/lab4/sr_arpcache.c:21-32 | a sweep terminates, although requests go and come while it runs; the due requests with five tries are gone and exactly their packets released and the senders of these told, all others are where they were with all their packets, and exactly the due ones asked for once, in order |
| PendingPackets.StillWaits | EE323/lab4/sr_arpcache.c:21-32 | so each request that is not given up is there afterwards, with its packets behind what came in front |
| PendingPackets.Router.Forward | EE323/lab4/sr_router.c:379-412 | with the address known the packet leaves with one hop less; otherwise it is in front of the request for the address, or released with it if that was due with five tries |

## Left out

- PipelineTheorems.CycleByCycle: is for programs without jumps, because their data results (the link register written in decode) differ between the simulators; `ControlPath` covers their control flow.
- BranchingPrograms.CheckableRefines: leaves out slt, srl and ori, on which the simulators differ, and asks for the spacing on every path, also where a misprediction would give it.
- Pipeline.PipeStaysInText: the ALU result of an unknown function code, undefined in the source, is 0 in the model.
- MainMemory.MemoryRegions.Read32: an access that starts inside a region and straddles its end, which in the source runs past the buffer, counts as outside.
- MainMemory.MemoryRegions.Write32: the same accesses count as outside.
- ControlPath.PathConnected: fields of a jump that overlap rs and rt in memory are separate fields here; any values of them are covered.
- AssemblerPasses.TwoPass.Assemble: names are strings, so the label buffer that the source reuses without a terminator is not captured; a file has one data section followed by one text section, and the object file fits its buffer.
- Assembler.SecondPassLayout: reading registers and numbers (strtol, atoi) is a parameter of the model.
- Encoding.DecodeEncode: fields that the decoder leaves as they were are 0.
- MallocAllocator.Allocator.Malloc: requests above 2^32 - 16 bytes are excluded, where the rounded size has no list.
- MallocAllocator.Allocator.Realloc: growth that would leave a remainder below 16 bytes, and a move for which memory is refused, are excluded: the source checks neither.
- MallocAllocator.Allocator.GrowInPlace: growth that would leave a remainder below 16 bytes is excluded, for which `MallocLimits.NothingRemains` has a call.
- MallocAllocator.Allocator.Relocate: a move for which memory is refused is excluded, for which `MallocLimits.NowhereToMove` has a call.
- MallocTrace.Replay: the driver does not make the calls of mm_realloc that are excluded above, nor requests that its own bookkeeping rules out.
- AssemblerPasses.Load: text and data fit their regions, as those of every file that the assembler can write do.
- CacheSimulator.Simulator.AccessCache: one set of one-byte blocks is excluded, where the source shifts a word by its width; operations are R or W, and traces are shorter than 2^32.
- StcpTheorems.DeliversPrefix: the network is reliable and in order, and a close request comes after the application's data is drained, as the layer below promises; how data is cut into segments is arbitrary.
- MergeSort.SortBoth: elements are values of any type instead of bytes moved one by one, and the temporary buffer is a sequence; needs at least one element, as msort computes nmemb - 1.
- QuickSort.Quick.RandomSort: the seeding of rand is not modelled; any choice is covered.
- QuickSort.Quick.Sort: printing of the count is not modelled, nor the copy of the array that is never read.
- HashTable.Blacklist.Resize: the new table starts empty, which the source does not see to; sizes do not overflow an int; buckets are sequences of nodes.
- PendingPackets.Router.HandleReq: packets are records with the fields that matter; checksums, Ethernet headers, locks and the contents of ICMP messages are not modelled, and routes and interface addresses are parameters.
- The router's longest-prefix match, its handling of packets for itself and its expiry of ARP entries.
- File, terminal, socket and process code: option parsing, dumps, the proxy and server of the network labs, the shell.
- The bit puzzles of the data lab, whose domains are small words.
- The other test drivers and timers of the labs, and running out of memory in the C library.
