# Unison's LLVM passes, modelled in Dafny

This project models the parts of Unison's fork of LLVM that prepare programs
for the Unison combinatorial register allocator and instruction scheduler,
hand them to it, and read its results back. It also proves properties of that
model. Each source file of the core becomes one module:

- `UnisonText` in `tablegen_text.dfy`: `split`, `eatWhiteSpace`, `downCase` and `escape` of the instruction-set generator.
- `UnisonInstruction` in `tablegen_instruction.dfy`: the instruction record and its YAML printers, as an output stream object whose text grows.
- `UnisonRecords` in `tablegen_unison.dfy`: operand flattening and naming, tied-operand constraints, operand lists with use/def tags, the record fields read, and the generated document.
- `MemoryAlias` in `memory_alias.dfy`: per-block union-find partitioning of memory accesses and the partition metadata.
- `CleanUnisonMetadata` in `clean_unison_metadata.dfy`: the restart-scan removal of metadata whose first string starts with "unison".
- `HexagonConstExtension` in `hexagon_const_extension.dfy`: the constant-extension marker that the Hexagon pass appends.
- `ComputeISelCost` in `compute_isel_cost.dfy`: the cost of one instruction.
- `ISelCost` in `isel_cost.dfy`: the size report.
- `UnisonDriver` in `unison_driver.dfy`: activation, target choice, argument vectors, temporary files and the nine-stage pipeline.
- `TrivialBranchFolding` in `trivial_branch_folding.dfy`: the removal of unconditional branches made redundant by a fall-through, both as the reverse-iterator loop performs it and as the erase-all fold its comment describes.
- `WeightedIPB` in `weighted_ipb.dfy`: per-block bundle and instruction counts, and the frequency-weighted ratio.
- `MachineCodeStats` in `machine_code_stats.dfy`: function statistics, a `Statistics` object of counters, and the mean of the register-class weights.
- `LiftConstExprs` in `lift_const_exprs.dfy`: the liftability test, the opcode mapping, and the worklist pass with its phi update.
- `LowerGetElementPtr` in `lower_get_element_ptr.dfy`: GEP lowering into `ptrtoint`, integer arithmetic and `inttoptr`, and the block pass around it.
- `ExtractAll` in `llvm_extract_all.dfy`: `fileName` and the output names of `llvm-extract-all`.

Three modules are shared by the others:
- `Wrappers` holds `Option` and `Result`.
- `Strings` holds white space, prefixes, decimal printing and `setw` padding.
- `MachineIR` holds operands, metadata, machine instructions, blocks, the
  bundle iterator's view of a block (`Visited`), and a `MachineFunction`
  object whose blocks the in-place passes rewrite.

Code that changes state in the source changes state here too:
- the driver, the output stream, the statistics and the function under a pass
  are objects with `modifies` clauses;
- the per-block and per-instruction loops are methods with loop invariants;
- each method is proved against a specification function, and the
  specification functions carry the lemmas.

Anything the passes ask of the host is a parameter of the model. This covers:
- the scheduler's alias test, the latency model and branch analysis;
- the Hexagon extension queries and the register information;
- block frequencies, program lookup, temporary files, tool runs and MIR loading.

The verifier checks that all of this holds; nothing here is executed.

The lifter in `LiftConstExprs` is partial. The liftability test accepts some
expressions that the lifter has no case for, and the lifter then stops on an
assertion:
- `ExtractValue` and `ShuffleVector` are liftable on their own opcode;
- `LShr`, `FAdd`, `FSub` and `FMul` are liftable through their operands.

The model returns `Failure("Unhandled constant expression!")` for these, and
`LiftConstExprs.ClassifiedButUnhandled` shows that each of them is reached.

## Model

| member | source | states |
|---|---|---|
| Strings.Spaces | lib/TableGen/Instruction.cpp:74 | `setw(n)` before a single blank prints exactly `n` blanks |
| Strings.PadRight | lib/TableGen/Instruction.cpp:174-175 | `setw(w) << left` keeps the text as its prefix and pads it with blanks up to `w`, never truncating |
| Strings.NatToString | lib/TableGen/Unison.cpp:147 | `std::to_string` of a natural number is a non-empty string of digits |
| Strings.NatToStringRoundTrip | lib/TableGen/Unison.cpp:147 | reading the printed digits back gives the number |
| Strings.NatToStringNoLeadingZero | lib/TableGen/Unison.cpp:147 | the printed form starts with '0' exactly when the number is 0 |
| Strings.IntToString | lib/TableGen/Instruction.cpp:124 | `std::to_string` of a signed integer starts with '-' exactly when it is negative |
| ComputeISelCost.GetInstrCost | lib/CodeGen/ComputeISelCost.cpp:20-37 | the cost is 0 for `ADJCALLSTACKDOWN`/`ADJCALLSTACKUP`, 0 when any operand is a frame index, and the scheduling model's latency otherwise |
| ComputeISelCost.InstrCostBounds | lib/CodeGen/ComputeISelCost.cpp:25-36 | an instruction's cost is either zero or its full latency, never more |
| ComputeISelCost.FreeIndependentOfOperandOrder | lib/CodeGen/ComputeISelCost.cpp:29-34 | whether an instruction is free depends only on its name and the multiset of its operands, not their order |
| ComputeISelCost.AddMetadataKeepsFreeness | lib/CodeGen/ComputeISelCost.cpp:29-34 | attaching a metadata operand never changes whether an instruction is free |
| ISelCost.SizeReport | lib/CodeGen/ISelCost.cpp:61 | the report line starts with `{"size": ` and ends with `}` and a newline |
| ISelCost.RunOnMachineFunction | lib/CodeGen/ISelCost.cpp:45-65 | the pass reports no change, and its report carries the summed size of every instruction the bundle iterator visits in every block |
| ISelCost.BlockSizeAppend | lib/CodeGen/ISelCost.cpp:52-58 | a block's size is additive over any split of the block |
| ISelCost.FunctionSizeAppend | lib/CodeGen/ISelCost.cpp:50-59 | a function's size is additive over any split of its block list |
| ISelCost.BlockSizeRemove | lib/CodeGen/ISelCost.cpp:52-58 | removing one instruction removes exactly the size it contributes |
| ISelCost.BlockSizePermutation | lib/CodeGen/ISelCost.cpp:52-58 | the size does not depend on the order of instructions in a block |
| ISelCost.BlockSizeIgnoresBundled | lib/CodeGen/ISelCost.cpp:52-54 | instructions inside a bundle add nothing, because the iterator only visits bundle heads |
| HexagonConstExtension.MarkBlock | lib/Target/Hexagon/HexagonConstExtension.cpp:89-101 | the block keeps its length and each instruction is decided on its own, independently of its neighbours |
| HexagonConstExtension.MarkFunction | lib/Target/Hexagon/HexagonConstExtension.cpp:88-102 | the function keeps its block count and each block is marked on its own |
| HexagonConstExtension.MarkBlockOperands | lib/Target/Hexagon/HexagonConstExtension.cpp:89-101 | the loop over one block yields the marked block, and reports a change exactly when some non-transient instruction is extended or constant-extended |
| HexagonConstExtension.RunOnMachineFunction | lib/Target/Hexagon/HexagonConstExtension.cpp:85-104 | the function's blocks become the marked blocks, and the pass reports a change exactly when it marked an instruction |
| HexagonConstExtension.MarkInstrEffect | lib/Target/Hexagon/HexagonConstExtension.cpp:90-99 | a marked instruction keeps its operands and gains the constant-extended `unison-property` metadata operand at the end; an unmarked one is untouched; nothing but the operand list changes |
| HexagonConstExtension.ConstantExtendedIsUnison | lib/Target/Hexagon/HexagonConstExtension.cpp:94-97 | the attached node is one the Unison metadata cleaner strips |
| HexagonConstExtension.CleanUndoesMarkInstr | lib/Target/Hexagon/HexagonConstExtension.cpp:90-99 | cleaning Unison metadata after marking gives what cleaning gives without marking, instruction by instruction |
| HexagonConstExtension.CleanUndoesMark | lib/Target/Hexagon/HexagonConstExtension.cpp:85-104 | the cleaner run after this pass yields the same function as the cleaner run without it |
| HexagonConstExtension.MarkFunctionUnchangedIff | lib/Target/Hexagon/HexagonConstExtension.cpp:87-103 | the function is left unchanged exactly when the pass returns false |
| WeightedIPB.CountBlockInstructions | lib/CodeGen/WeightedIPB.cpp:68-81 | the loop over one block counts instructions and bundles as the three-way classification defines them |
| WeightedIPB.CountBlockFacts | lib/CodeGen/WeightedIPB.cpp:68-81 | every non-header is an instruction; bundles lie between the header count and the block length; real bundles are on exactly when a header occurs; a non-empty block has a bundle |
| WeightedIPB.UnbundledBlock | lib/CodeGen/WeightedIPB.cpp:75-80 | without headers every instruction is its own bundle |
| WeightedIPB.BlockRatios | lib/CodeGen/WeightedIPB.cpp:66-85 | the first loop gives each non-empty block its instructions-per-bundle ratio and sums the block frequencies |
| WeightedIPB.SumShares | lib/CodeGen/WeightedIPB.cpp:87-94 | the second loop weights each non-empty block's ratio by its share of the total frequency, and yields no number when the total is zero |
| WeightedIPB.RunOnMachineFunction | lib/CodeGen/WeightedIPB.cpp:58-106 | the pass never changes the function and computes the frequency-weighted instructions per bundle |
| WeightedIPB.WeightedOfUnbundled | lib/CodeGen/WeightedIPB.cpp:87-94 | on unbundled non-empty blocks, the partial weighted sum is the covered share of the total frequency |
| WeightedIPB.UnbundledFunctionWeighsOne | lib/CodeGen/WeightedIPB.cpp:58-106 | code without bundles, on non-empty blocks with positive total frequency, reports exactly one instruction per bundle |
| TrivialBranchFolding.EraseUnconditionalBranches | lib/CodeGen/TrivialBranchFolding.cpp:89-95 | the reverse walk yields the block as the `std::reverse_iterator` loop leaves it (an erased branch's predecessor is stepped over), and reports a change exactly when the block holds an examined unconditional branch |
| TrivialBranchFolding.VisitedOfBundled | lib/CodeGen/TrivialBranchFolding.cpp:89-90 | instructions inside a bundle are never visited on their own |
| TrivialBranchFolding.WalkThenFold | lib/CodeGen/TrivialBranchFolding.cpp:87-95 | the walk as written erases a subset of the branches the comment promises to remove: erasing every remaining branch after it gives the intended fold |
| TrivialBranchFolding.WalkKeepsOtherVisited | lib/CodeGen/TrivialBranchFolding.cpp:89-95 | the walk as written never erases anything but unconditional branches: the visited non-branch instructions keep their order |
| TrivialBranchFolding.WalkWithoutBranch | lib/CodeGen/TrivialBranchFolding.cpp:89-95 | the walk leaves a block without unconditional branches as it is |
| TrivialBranchFolding.WalkShortens | lib/CodeGen/TrivialBranchFolding.cpp:91-94 | the walk never lengthens the block, and strictly shortens it when it held a branch |
| TrivialBranchFolding.WalkUnchangedIff | lib/CodeGen/TrivialBranchFolding.cpp:89-95 | the walk changes the block exactly when it holds an unconditional branch |
| TrivialBranchFolding.WalkSkipsBranch | lib/CodeGen/TrivialBranchFolding.cpp:89-95 | for two consecutive unconditional branches the walk erases only the last, a second run erases the other, while the intended fold erases both (see Findings) |
| TrivialBranchFolding.FoldKeepsOtherVisited | lib/CodeGen/TrivialBranchFolding.cpp:87-88 | the intended fold (remove all unconditional branches): the visited instructions left are exactly the visited non-branches, in their original order |
| TrivialBranchFolding.FoldLeavesNoBranch | lib/CodeGen/TrivialBranchFolding.cpp:87-88 | after the intended fold no examined instruction is an unconditional branch |
| TrivialBranchFolding.FoldWithoutBranch | lib/CodeGen/TrivialBranchFolding.cpp:87-88 | the intended fold leaves a block without unconditional branches as it is |
| TrivialBranchFolding.FoldShortens | lib/CodeGen/TrivialBranchFolding.cpp:87-88 | the intended fold never lengthens the block, and strictly shortens it when it held a branch |
| TrivialBranchFolding.FoldUnchangedIff | lib/CodeGen/TrivialBranchFolding.cpp:87-88 | the intended fold changes the block exactly when it holds an unconditional branch |
| TrivialBranchFolding.FoldIdempotent | lib/CodeGen/TrivialBranchFolding.cpp:87-88 | the intended fold is idempotent |
| TrivialBranchFolding.RunOnMachineBasicBlock | lib/CodeGen/TrivialBranchFolding.cpp:78-101 | a block that falls through to a not-taken target that is its layout successor is walked as written, any other is returned untouched; the change flag is set exactly when a qualifying block held a branch |
| TrivialBranchFolding.RunOnMachineFunction | lib/CodeGen/TrivialBranchFolding.cpp:59-75 | every block is processed in place (walked when it qualifies, untouched otherwise, block count kept), and the pass reports a change exactly when some qualifying block held a branch |
| MachineIR.Visited | lib/CodeGen/ISelCost.cpp:52-54 | the bundle iterator visits no more instructions than the block holds |
| MachineIR.VisitedAppend | lib/CodeGen/ISelCost.cpp:52-54 | the instructions visited in a joined sequence are those visited in each part, in order |
| MachineIR.AddOperand | lib/Target/Hexagon/HexagonConstExtension.cpp:98 | `addOperand` puts the new operand last and changes nothing else about the instruction |
| MachineCodeStats.CountOperands | lib/CodeGen/MachineCodeStats.cpp:85-100 | the operand loop counts the register definitions and collects the virtual registers among the register operands |
| MachineCodeStats.CountBlock | lib/CodeGen/MachineCodeStats.cpp:60-101 | the instruction loop over the visited instructions of a block yields the block's tally and its virtual registers |
| MachineCodeStats.BlockStep | lib/CodeGen/MachineCodeStats.cpp:60-101 | a visited instruction adds its own tally and registers to the block's; one inside a bundle adds nothing |
| MachineCodeStats.CountFunction | lib/CodeGen/MachineCodeStats.cpp:51-103 | the block loop yields the function's tally, the instruction count of its largest block and its distinct virtual registers |
| MachineCodeStats.RegClassWeights | lib/CodeGen/MachineCodeStats.cpp:113-119 | the register loop, over the distinct virtual registers in increasing order, collects the class of every register, and its i-th weight is the class weight of the i-th register's class |
| MachineCodeStats.AscendingFacts | lib/CodeGen/MachineCodeStats.cpp:113-119 | the order the register loop visits is strictly increasing and lists every register exactly once |
| MachineCodeStats.MeanAsWritten | include/llvm/CodeGen/MachineCodeStats.h:60-65 | the `unsigned` mean is defined exactly when the size does not wrap to 0 and always fits in 32 bits |
| MachineCodeStats.MeanAsWrittenIsFloor | include/llvm/CodeGen/MachineCodeStats.h:60-65 | when neither the sum nor the size wraps, the `unsigned` mean is the floor of the mean |
| MachineCodeStats.Mean | include/llvm/CodeGen/MachineCodeStats.h:60-65 | the mean times the number of weights is their sum (the intended mean; see Findings) |
| MachineCodeStats.SumBounds | include/llvm/CodeGen/MachineCodeStats.h:63 | the sum of n weights, each between lo and hi, lies between n·lo and n·hi |
| MachineCodeStats.MeanBounds | include/llvm/CodeGen/MachineCodeStats.h:60-65 | the mean lies between the smallest and the largest weight |
| MachineCodeStats.MeanAsWrittenTruncates | include/llvm/CodeGen/MachineCodeStats.h:60-65 | with weights 1 and 2 the code's unsigned mean is 1, while the mean is 1.5 |
| MachineCodeStats.MeanAsWrittenBelowMinimum | include/llvm/CodeGen/MachineCodeStats.h:60-65 | with two weights of 2^32 - 1 the wrapped sum makes the code's mean 2^31 - 1, below every weight |
| MachineCodeStats.Statistics.constructor | lib/CodeGen/MachineCodeStats.cpp:20-33 | every counter starts at zero |
| MachineCodeStats.MachineCodeStatsPass.constructor | include/llvm/CodeGen/MachineCodeStats.h:41-43 | the default pass counts before register allocation |
| MachineCodeStats.MachineCodeStatsPass.WithPoint | include/llvm/CodeGen/MachineCodeStats.h:44-46 | the pass counts at the stats point it is given |
| MachineCodeStats.MachineCodeStatsPass.RunOnMachineFunction | lib/CodeGen/MachineCodeStats.cpp:42-132 | the function is added to the counters of the pass's own stats point and to no others; the largest-block counter is overwritten; before register allocation, with some virtual register, the class count is set and the class weights (in increasing register order) and their `unsigned` mean as the code computes it are returned; the function is never changed |
| MachineCodeStats.BlockInstsAreVisited | lib/CodeGen/MachineCodeStats.cpp:60-64 | the instruction counter grows by the number of instructions the bundle iterator visits |
| MachineCodeStats.CopiesAndCallsBounded | lib/CodeGen/MachineCodeStats.cpp:68-83 | copies and calls are each at most the number of counted instructions |
| MachineCodeStats.BlockCopiesAndCallsBounded | lib/CodeGen/MachineCodeStats.cpp:68-83 | within one block, copies and calls are each at most its instruction count |
| MachineCodeStats.MaxBlockIsMaximum | lib/CodeGen/MachineCodeStats.cpp:47-102 | the largest-block statistic bounds every block's count and is attained by a block, or is 0 when there are no blocks |
| MachineCodeStats.OnlyVirtualRegs | lib/CodeGen/MachineCodeStats.cpp:95-99 | only virtual registers enter the set of distinct registers |
| MachineCodeStats.BlockOnlyVirtualRegs | lib/CodeGen/MachineCodeStats.cpp:95-99 | only virtual registers enter the set of one block |
| MachineCodeStats.OperandsOnlyVirtualRegs | lib/CodeGen/MachineCodeStats.cpp:95-99 | only virtual registers enter the set of one instruction's operands |
| MachineCodeStats.PhysicalDefsCounted | lib/CodeGen/MachineCodeStats.cpp:87-99 | the "virtual registers" counter counts a definition of a physical register too, while the distinct set stays empty |
| MachineCodeStats.RegClassesBound | lib/CodeGen/MachineCodeStats.cpp:113-119 | there are at most as many register classes as distinct virtual registers, and at least one when there is a register |
| CleanUnisonMetadata.KeepOperands | lib/CodeGen/CleanUnisonMetadata.cpp:92-111 | filtering never lengthens the operand list |
| CleanUnisonMetadata.KeepOperandsMembers | lib/CodeGen/CleanUnisonMetadata.cpp:96-104 | the kept operands are exactly the operands that are not metadata whose first string starts with "unison" |
| CleanUnisonMetadata.KeepOperandsAppend | lib/CodeGen/CleanUnisonMetadata.cpp:92-111 | filtering distributes over concatenation, so the kept operands keep their relative order |
| CleanUnisonMetadata.KeepOperandsRemoveAt | lib/CodeGen/CleanUnisonMetadata.cpp:101-104 | removing one Unison operand, the step of the restart scan, does not change what the filter finally keeps |
| CleanUnisonMetadata.KeepOperandsUnchanged | lib/CodeGen/CleanUnisonMetadata.cpp:92-111 | nothing is removed exactly when no operand is Unison metadata |
| CleanUnisonMetadata.CleanOperands | lib/CodeGen/CleanUnisonMetadata.cpp:92-111 | the remove-and-rescan loop ends with exactly the non-Unison operands, none Unison left, and reports a removal exactly when there was a Unison operand |
| CleanUnisonMetadata.CleanBlock | lib/CodeGen/CleanUnisonMetadata.cpp:91-112 | no instruction is added, dropped or reordered; each is cleaned on its own |
| CleanUnisonMetadata.CleanFunction | lib/CodeGen/CleanUnisonMetadata.cpp:90-113 | no block is added, dropped or reordered; each is cleaned on its own |
| CleanUnisonMetadata.CleanBlockOperands | lib/CodeGen/CleanUnisonMetadata.cpp:91-112 | the loop over one block yields the cleaned block and reports a change exactly when some instruction carried Unison metadata |
| CleanUnisonMetadata.RunOnMachineFunction | lib/CodeGen/CleanUnisonMetadata.cpp:88-115 | the function becomes its cleaned form, and the pass reports a change exactly when some instruction carried Unison metadata |
| CleanUnisonMetadata.NoUnisonLeft | lib/CodeGen/CleanUnisonMetadata.cpp:88-115 | after the pass no instruction carries Unison metadata |
| CleanUnisonMetadata.KeepOperandsIdempotent | lib/CodeGen/CleanUnisonMetadata.cpp:92-111 | filtering a filtered operand list changes nothing |
| CleanUnisonMetadata.CleanFunctionIdempotent | lib/CodeGen/CleanUnisonMetadata.cpp:88-115 | running the pass a second time changes nothing |
| CleanUnisonMetadata.CleanFunctionUnchangedIff | lib/CodeGen/CleanUnisonMetadata.cpp:88-115 | the function is unchanged exactly when the pass reports no change |
| MemoryAlias.Union | lib/CodeGen/MemoryAlias.cpp:125 | `unionSets` moves every member of the second class into the first and leaves other elements where they are |
| MemoryAlias.UnionMatches | lib/CodeGen/MemoryAlias.cpp:117-128 | merging along a new pair keeps the class labels in step with connectivity over the pairs merged so far |
| MemoryAlias.Accesses | lib/CodeGen/MemoryAlias.cpp:111-113 | the collected instructions are memory accesses that are not bundle headers, no more than the block holds |
| MemoryAlias.AccessesPrefix | lib/CodeGen/MemoryAlias.cpp:111-113 | the accesses of a prefix of the block are a prefix of its accesses |
| MemoryAlias.RankOfAccess | lib/CodeGen/MemoryAlias.cpp:111-113 | the access at block position `i` is the collected access with index `Rank(block, i)` |
| MemoryAlias.RankInjective | lib/CodeGen/MemoryAlias.cpp:111-113 | distinct access positions get distinct, increasing indices |
| MemoryAlias.ProcessedEnds | lib/CodeGen/MemoryAlias.cpp:117-128 | the pairwise loop starts with no merged pairs and ends with every pair that needs a chain edge and involves a store |
| MemoryAlias.MergeAliasing | lib/CodeGen/MemoryAlias.cpp:117-128 | after the pairwise loop two accesses share a class exactly when a chain of merging pairs connects them |
| MemoryAlias.NumberClasses | lib/CodeGen/MemoryAlias.cpp:130-138 | each class gets one number; numbers are equal exactly when classes are; the numbers used are exactly 0 .. count-1 |
| MemoryAlias.CollectAccesses | lib/CodeGen/MemoryAlias.cpp:110-113 | the collecting loop yields the block's accesses in block order |
| MemoryAlias.PartitionBlock | lib/CodeGen/MemoryAlias.cpp:108-138 | collecting, merging and numbering yield a numbering of the accesses by connected class, with numbers 0 .. count-1 |
| MemoryAlias.AnnotateBlock | lib/CodeGen/MemoryAlias.cpp:142-155 | the annotated block has the same length, and each instruction is annotated by its own position |
| MemoryAlias.AnnotateBlockOperands | lib/CodeGen/MemoryAlias.cpp:142-155 | the annotation loop yields the annotated block and sets the change flag exactly when the block holds an access |
| MemoryAlias.PartitionMap | lib/CodeGen/MemoryAlias.cpp:131-138 | the map recorded for block b of function f holds exactly the keys (f, b, i) of the block's accesses, each with its access's partition |
| MemoryAlias.MemoryAliasPass.constructor | lib/CodeGen/MemoryAlias.cpp:69-74 | the pass starts with an empty partition map |
| MemoryAlias.MemoryAliasPass.GetAccessPartition | lib/CodeGen/MemoryAlias.cpp:81-83 | the query yields the partition recorded for the instruction (function, block, position), and fails (as `map::at` throws) for one that no run recorded |
| MemoryAlias.MemoryAliasPass.RunOnMachineFunction | lib/CodeGen/MemoryAlias.cpp:98-161 | every block is partitioned, annotated and recorded in the pass's map under the function's identity; every entry of another function, and of this function's positions beyond its blocks, is kept with its value; the pass reports a change exactly when some block holds an access |
| MemoryAlias.RecordNewBlock | lib/CodeGen/MemoryAlias.cpp:131-155 | recording a block's numbering establishes what the pass promises for that block |
| MemoryAlias.BlockRecordedFrame | lib/CodeGen/MemoryAlias.cpp:105-157 | recording a later block keeps what was recorded for an earlier one |
| MemoryAlias.ConnectedIsEquivalence | lib/CodeGen/MemoryAlias.cpp:65 | sharing a partition is reflexive, symmetric and transitive |
| MemoryAlias.AliasingAccessesShare | lib/CodeGen/MemoryAlias.cpp:122-126 | two accesses that may alias, one of them a store, share a partition |
| MemoryAlias.LoadsStaySeparate | lib/CodeGen/MemoryAlias.cpp:122 | without stores no merge happens, so every access has its own partition |
| MemoryAlias.GroupingIndependentOfOrder | lib/CodeGen/MemoryAlias.cpp:130-138 | which accesses share a partition does not depend on the order in which leaders are met, only the numbers do |
| MemoryAlias.AnnotationsAgreeIffConnected | lib/CodeGen/MemoryAlias.cpp:142-155 | two annotated accesses carry the same last operand exactly when they are connected |
| MemoryAlias.AnnotateBlockShape | lib/CodeGen/MemoryAlias.cpp:142-155 | every access gains one `unison-memory-partition` operand at the end; everything else is unchanged |
| MemoryAlias.CleanUndoesPartitions | lib/CodeGen/MemoryAlias.cpp:148-153 | the Unison metadata cleaner removes every partition annotation again |
| MemoryAlias.CleanUndoesPartition | lib/CodeGen/MemoryAlias.cpp:148-153 | the cleaner undoes the annotation of one instruction |
| MemoryAlias.PartitionOperandIsUnison | lib/CodeGen/MemoryAlias.cpp:148-152 | the partition node is one the Unison metadata cleaner strips |
| ExtractAll.FindLastSeparator | tools/llvm-extract-all/llvm-extract-all.cpp:60 | `find_last_of("/\\")` gives the position of the last slash or backslash, and none when there is none |
| ExtractAll.FindFrom | tools/llvm-extract-all/llvm-extract-all.cpp:62 | `find` gives the first occurrence at or after the start position, and none when there is none |
| ExtractAll.BaseName | tools/llvm-extract-all/llvm-extract-all.cpp:60-61 | the part after the last separator is a separator-free suffix of the path, and the whole path when it holds no separator (`npos + 1` wraps to 0) |
| ExtractAll.FileNameFacts | tools/llvm-extract-all/llvm-extract-all.cpp:57-64 | the file name is a separator-free prefix of the base name holding no ".ll", and it is the whole base name exactly when that holds no ".ll" |
| ExtractAll.FileNameIdempotent | tools/llvm-extract-all/llvm-extract-all.cpp:57-64 | taking the file name of a file name changes nothing |
| ExtractAll.FileNameOfPath | tools/llvm-extract-all/llvm-extract-all.cpp:57-64 | the directory goes and the name is cut at the first ".ll", even when more follows it (`dir/b.llvm.ll` gives `b`) |
| ExtractAll.BaseNameOfPath | tools/llvm-extract-all/llvm-extract-all.cpp:60-61 | after a directory and a slash, the base name is what follows the slash |
| ExtractAll.FileNameOfStem | tools/llvm-extract-all/llvm-extract-all.cpp:57-64 | a name with neither separator nor dot is its own file name |
| ExtractAll.OutName | tools/llvm-extract-all/llvm-extract-all.cpp:126-132 | an output name starts with the module's file name and a dot when that is asked for, and always ends in ".ll" |
| ExtractAll.BuildOutName | tools/llvm-extract-all/llvm-extract-all.cpp:126-132 | the successive appends build exactly that output name |
| ExtractAll.WriteFunctions | tools/llvm-extract-all/llvm-extract-all.cpp:85-150 | the function loop skips empty functions, writes only files it could open, writes a prefix of the expected outputs, and stops at exactly the first file it cannot open |
| ExtractAll.Run | tools/llvm-extract-all/llvm-extract-all.cpp:67-212 | status 1 with nothing written when the input does not load; otherwise the functions' files and then, with some global, the globals file, with status 0 exactly when all were written and status 1 at the first file that cannot be opened |
| ExtractAll.FunctionOutputsPrefix | tools/llvm-extract-all/llvm-extract-all.cpp:85-150 | the outputs of the first functions are a prefix of the outputs of all of them |
| ExtractAll.OutNameInjective | tools/llvm-extract-all/llvm-extract-all.cpp:126-132 | different function names give different output names |
| ExtractAll.FunctionOutputsMembers | tools/llvm-extract-all/llvm-extract-all.cpp:85-150 | every output belongs to a non-empty function of that name, and every non-empty function has one |
| ExtractAll.FunctionOutputsDistinct | tools/llvm-extract-all/llvm-extract-all.cpp:85-150 | functions with distinct names write distinct files |
| ExtractAll.GlobalsFunctionCollides | tools/llvm-extract-all/llvm-extract-all.cpp:131-132 | a non-empty function called `globals` writes the same file as the globals module, which overwrites it |
| ExtractAll.OutputsDistinct | tools/llvm-extract-all/llvm-extract-all.cpp:85-212 | otherwise every written file is distinct |
| UnisonText.Fields | lib/TableGen/Unison.cpp:326-334 | a string has one more field than it has delimiters, empty fields included |
| UnisonText.SplitString | lib/TableGen/Unison.cpp:326-334 | the `getline` loop yields the fields, without the empty one after a trailing delimiter and without any for an empty string |
| UnisonText.FieldsFree | lib/TableGen/Unison.cpp:326-334 | no field holds the delimiter |
| UnisonText.SplitFree | lib/TableGen/Unison.cpp:326-334 | no element of the split holds the delimiter |
| UnisonText.JoinFields | lib/TableGen/Unison.cpp:326-334 | joining the fields with the delimiter gives back the string |
| UnisonText.SplitJoin | lib/TableGen/Unison.cpp:326-334 | a non-empty string that does not end in the delimiter is the join of its split |
| UnisonText.TrailingDelimiter | lib/TableGen/Unison.cpp:330 | one trailing delimiter adds no element |
| UnisonText.ConsecutiveDelimiters | lib/TableGen/Unison.cpp:330 | a delimiter right after a delimiter yields an empty element |
| UnisonText.TrimStart | lib/TableGen/Unison.cpp:339-345 | the result is a suffix, all of whose removed characters are white space, and it does not start with white space |
| UnisonText.TrimEnd | lib/TableGen/Unison.cpp:346-351 | the result is a prefix, all of whose removed characters are white space, and it does not end with white space |
| UnisonText.EatWhiteSpace | lib/TableGen/Unison.cpp:338-353 | the two erasing loops remove the leading and then the trailing white space |
| UnisonText.TrimFacts | lib/TableGen/Unison.cpp:338-353 | the result is the slice between a white-space prefix and a white-space suffix, with no white space at either end, and white space inside it is kept |
| UnisonText.TrimIdempotent | lib/TableGen/Unison.cpp:338-353 | trimming twice is trimming once |
| UnisonText.TrimEmptyIff | lib/TableGen/Unison.cpp:338-353 | a string trims to nothing exactly when it is all white space |
| UnisonText.Lower | lib/TableGen/Unison.cpp:368-374 | each character is lower-cased in place; the length is kept |
| UnisonText.DownCase | lib/TableGen/Unison.cpp:368-374 | the appending loop yields the lower-cased string |
| UnisonText.LowerFacts | lib/TableGen/Unison.cpp:368-374 | lower-casing keeps the length, leaves no upper-case ASCII letter and is idempotent |
| UnisonText.Escape | lib/TableGen/Unison.cpp:357-365 | a name whose lower-cased form is one of the eight YAML booleans gets a quote appended; any other name is kept |
| UnisonText.QuotedIsNoBoolean | lib/TableGen/Unison.cpp:358-362 | no YAML boolean ends in a quote |
| UnisonText.EscapeIdempotent | lib/TableGen/Unison.cpp:357-365 | escaping an escaped name changes nothing |
| UnisonText.EscapeChangesIff | lib/TableGen/Unison.cpp:357-365 | escaping changes a name exactly when it looks like a boolean, and then only by one appended quote (`Yes` becomes `Yes'`, `src1` stays) |
| UnisonInstruction.OutStream.constructor | lib/TableGen/Instruction.cpp:154-165 | a fresh output stream holds no text |
| UnisonInstruction.JoinUseDefs | lib/TableGen/Instruction.cpp:104-111 | the join loop puts ", " before every name but the first and brackets the result |
| UnisonInstruction.PrintAttribute | lib/TableGen/Instruction.cpp:168-178 | `printAttribute` appends exactly one attribute line and keeps what the stream held |
| UnisonInstruction.PrintField | lib/TableGen/Instruction.cpp:181-188 | `printField` appends exactly one field line and keeps what the stream held |
| UnisonInstruction.PrintId | lib/TableGen/Instruction.cpp:72-77 | `print_id` appends the id line |
| UnisonInstruction.PrintOperands | lib/TableGen/Instruction.cpp:83-99 | `print_operands` appends the `operands:` header and one field per operand, in order |
| UnisonInstruction.PrintUseDefs | lib/TableGen/Instruction.cpp:102-113 | `print_usedefs` appends one attribute line with the bracketed, comma-separated names |
| UnisonInstruction.PrintAffs | lib/TableGen/Instruction.cpp:136-148 | `print_affs` appends the header, a memory field when memory is affected, and one register field per register |
| UnisonInstruction.PrintAll | lib/TableGen/Instruction.cpp:154-165 | `print_all` appends a blank line and then id, type, operands, uses, defines, size, affects, affected-by and itinerary, in that order |
| UnisonInstruction.AttributeLineLayout | lib/TableGen/Instruction.cpp:168-178 | an attribute line is 10 blanks, the whole name, blanks up to column 30 when the name is shorter than 20, then the value and a newline; with an empty value, the name alone |
| UnisonInstruction.ValuesAlignAtColumn30 | lib/TableGen/Instruction.cpp:72-77 | short labels line every value up at column 30, for ids, attributes and fields alike |
| UnisonInstruction.OperandValueKinds | lib/TableGen/Instruction.cpp:88-96 | the printed value tells labels, bounds and registers apart, with label taking precedence over bound |
| UnisonInstruction.UseDefsValueShapes | lib/TableGen/Instruction.cpp:104-111 | no names print as `[]`, one name as `[x]`, and more names separated by ", " |
| UnisonInstruction.FieldIsOneLine | lib/TableGen/Instruction.cpp:181-188 | a field whose name and value hold no newline takes exactly one line |
| UnisonInstruction.RegisterLinesCount | lib/TableGen/Instruction.cpp:145-147 | the register fields take one line per register |
| UnisonInstruction.AffsLineCount | lib/TableGen/Instruction.cpp:136-148 | `print_affs` writes a header line, one line for memory when set, and one per register |
| UnisonInstruction.AffsHeaderIsOneLine | lib/TableGen/Instruction.cpp:139 | the header of an affects list is one line |
| UnisonInstruction.PrintAllExtends | lib/TableGen/Instruction.cpp:154-165 | `print_all` only appends: earlier text stays, and the instruction starts with a blank line and its id line |
| UnisonRecords.Flatten | lib/TableGen/Unison.cpp:171-176 | concatenating the sub-operands' lists is non-empty when one of them is |
| UnisonRecords.Flat | lib/TableGen/Unison.cpp:159-177 | an operand's leaf list is never empty, and is the operand's own name when it has no `MIOperandInfo` or an empty one |
| UnisonRecords.ParseOperands | lib/TableGen/Unison.cpp:138-154 | the nested loops yield, for every argument and every leaf of it in order, the leaf type paired with the escaped sub-operand name |
| UnisonRecords.ParsedOperandsStep | lib/TableGen/Unison.cpp:141-152 | one more argument adds exactly that argument's pairs |
| UnisonRecords.ArgPairAt | lib/TableGen/Unison.cpp:144-151 | one more leaf adds exactly that leaf's pair |
| UnisonRecords.SingleLeafName | lib/TableGen/Unison.cpp:146-149 | an argument with a single leaf keeps its own name, or `unnamed` when it has none |
| UnisonRecords.EscapeDigitEnding | lib/TableGen/Unison.cpp:146-149 | escaping never touches a name that ends in a digit |
| UnisonRecords.NumberedLeafName | lib/TableGen/Unison.cpp:146-148 | leaf `j` of an argument with several leaves is named after the argument with `j + 1` appended, never `unnamed` |
| UnisonRecords.LeafNamesDistinct | lib/TableGen/Unison.cpp:144-151 | no two leaves of one argument get the same name |
| UnisonRecords.SwapNames | lib/TableGen/Unison.cpp:198-205 | the swap keeps the list's length and every type |
| UnisonRecords.FailureAborts | lib/TableGen/Unison.cpp:191-206 | once an entry has failed, the whole constraint string fails |
| UnisonRecords.SwapLoop | lib/TableGen/Unison.cpp:198-205 | the loop over the output operands swaps the two names throughout |
| UnisonRecords.ApplyEntry | lib/TableGen/Unison.cpp:192-205 | one entry is trimmed, skipped when it is an early-clobber marker, and otherwise split at `=` and applied as a swap of the two names |
| UnisonRecords.ExecuteConstraints | lib/TableGen/Unison.cpp:189-207 | nothing happens for an empty string; otherwise every comma-separated entry is applied in turn |
| UnisonRecords.SwapTwiceRestores | lib/TableGen/Unison.cpp:198-205 | swapping the same two names twice restores the list |
| UnisonRecords.ConstraintTwiceRestores | lib/TableGen/Unison.cpp:192-205 | applying the same entry twice restores the list |
| UnisonRecords.ConstraintsKeepTypes | lib/TableGen/Unison.cpp:191-206 | constraints rename operands only: the length and every type are kept |
| UnisonRecords.ConstraintEntry | lib/TableGen/Unison.cpp:192-197 | an early-clobber marker does nothing, and an entry stops the generator exactly when it is not a marker and does not split into two non-empty sides at `=` (the failed `assert` or `substr(1)` of an empty side) |
| UnisonRecords.EarlyClobbersOnly | lib/TableGen/Unison.cpp:190-193 | the empty string and a string of early-clobber markers change nothing |
| UnisonRecords.GetOperandsFromVector | lib/TableGen/Unison.cpp:221-265 | the loop adds an operand for each pair whose name is not yet present, with its tag and kind |
| UnisonRecords.GetOperands | lib/TableGen/Unison.cpp:211-218 | outputs are added as definitions, then inputs as uses |
| UnisonRecords.OperandTagAndKind | lib/TableGen/Unison.cpp:240-262 | "def" for an output and "use" for an input, "usedef" exactly when the same pair is on the other side; a register is neither label nor bound, a label type only a label, anything else only a bound |
| UnisonRecords.AddOperandsDistinct | lib/TableGen/Unison.cpp:226-264 | adding operands keeps names distinct and keeps the earlier operands in front |
| UnisonRecords.FirstOccurrenceWins | lib/TableGen/Unison.cpp:230-238 | the first pair of a new name becomes an operand, and every added operand comes from a pair of the list |
| UnisonRecords.NameComesFrom | lib/TableGen/Unison.cpp:226-264 | a name present afterwards was there before or came from the list |
| UnisonRecords.OperandsOrder | lib/TableGen/Unison.cpp:211-218 | every output operand comes before every input operand, and all names are distinct |
| UnisonRecords.ExecutedKeepsTypes | lib/TableGen/Unison.cpp:189-207 | executing the constraints keeps the list's length and every type |
| UnisonRecords.GetNames | lib/TableGen/Unison.cpp:180-186 | the loop yields the names of the pairs, in order |
| UnisonRecords.GetRegisterList | lib/TableGen/Unison.cpp:109-116 | the loop yields the escaped register names, in order |
| UnisonRecords.BuildInstruction | lib/TableGen/Unison.cpp:65-86 | the body of the record loop builds the record's instruction, or stops when the constraints fail |
| UnisonRecords.PrintYaml | lib/TableGen/Unison.cpp:93-104 | `printYaml` appends the header and then every instruction's `print_all`, in order |
| UnisonRecords.PrintUnisonFile | lib/TableGen/Unison.cpp:57-90 | the generator succeeds exactly when every complete record can be read, then prints the document of all their instructions; when a record fails nothing is printed |
| UnisonRecords.InstructionsAbort | lib/TableGen/Unison.cpp:59-87 | once a record has stopped the generator, later records do not matter |
| UnisonRecords.RecordTypeCases | lib/TableGen/Unison.cpp:290-295 | an instruction is a call when `isCall` is set, otherwise a branch when `isBranch` or `isReturn` is set, otherwise linear; unset bits count as false |
| UnisonRecords.InstructionsOfCompleteRecords | lib/TableGen/Unison.cpp:59-87 | exactly the records with all needed fields become instructions, in the table's order, each named after its record |
| UnisonRecords.InstructionsFailIff | lib/TableGen/Unison.cpp:59-87 | the generator stops exactly when one of the complete records cannot be read |
| UnisonRecords.InstructionsFailStep | lib/TableGen/Unison.cpp:59-87 | the generator stops on a table exactly when it stops on all but the last record or on the last one |
| UnisonRecords.YamlHeaderText | lib/TableGen/Unison.cpp:94-100 | the document begins with `---`, `instruction-set:`, the `allInstructions` group and `instructions:`, with their blank lines and indentation |
| UnisonRecords.YamlStartsWithHeader | lib/TableGen/Unison.cpp:93-104 | `printYaml` only appends, and what it appends starts with the header |
| UnisonRecords.InstructionOfRecord | lib/TableGen/Unison.cpp:65-86 | the instruction carries the record's name, operands with distinct names, one definition per output pair, the input names as uses, the memory flags from `mayStore` and `mayLoad` (unset is false), and one affects entry per `Defs` and `Uses` register |
| LiftConstExprs.LiftableIffChain | lib/Transforms/LiftConstExprs/LiftConstExprs.cpp:69-111 | a value is liftable exactly when it is a constant expression from which a chain of constant-expression operands leads to one whose opcode is always liftable; nothing else is |
| LiftConstExprs.LiftableChain | lib/Transforms/LiftConstExprs/LiftConstExprs.cpp:97-105 | a liftable value has such a chain |
| LiftConstExprs.ChainLiftable | lib/Transforms/LiftConstExprs/LiftConstExprs.cpp:97-105 | the head of such a chain is liftable |
| LiftConstExprs.Lift | lib/Transforms/LiftConstExprs/LiftConstExprs.cpp:125-235 | the lifter has a case exactly for the cast, binary, compare, extractelement, GEP, insertelement, insertvalue and select opcodes; the instruction keeps the expression's operands in order, its opcode, the cast's target type, the compare predicate and the insertvalue indices |
| LiftConstExprs.ClassifiedButUnhandled | lib/Transforms/LiftConstExprs/LiftConstExprs.cpp:89-105 | extractvalue and shufflevector expressions, and lshr, fadd, fsub and fmul over a liftable operand, are liftable but have no lifter case |
| LiftConstExprs.LiftWeight | lib/Transforms/LiftConstExprs/LiftConstExprs.cpp:125-235 | the new instruction's operands hold all of the expression's structure but its own node |
| LiftConstExprs.ReplaceAll | lib/Transforms/LiftConstExprs/LiftConstExprs.cpp:312 | `replaceUsesOfWith` turns every operand equal to the expression into the new instruction and keeps the rest |
| LiftConstExprs.Rerouted | lib/Transforms/LiftConstExprs/LiftConstExprs.cpp:289-298 | the phi update writes the new value into every slot from `index` on whose incoming block is that of slot `index`, and into no other |
| LiftConstExprs.Spliced | lib/Transforms/LiftConstExprs/LiftConstExprs.cpp:142-227 | inserting before an instruction adds the new one to a block exactly when the insertion point is in it |
| LiftConstExprs.SplicedAt | lib/Transforms/LiftConstExprs/LiftConstExprs.cpp:142-227 | inserting before an instruction that occurs once puts the new one right in front of it |
| LiftConstExprs.SplicedMissing | lib/Transforms/LiftConstExprs/LiftConstExprs.cpp:142-227 | a block without the insertion point is left unchanged |
| LiftConstExprs.InsertBefore | lib/Transforms/LiftConstExprs/LiftConstExprs.cpp:142-227 | every block gets the new instruction in front of the insertion point, and no block is added |
| LiftConstExprs.OperandPushes | lib/Transforms/LiftConstExprs/LiftConstExprs.cpp:249-253 | the scan pushes only the instruction itself, once per liftable operand |
| LiftConstExprs.OperandPushesIff | lib/Transforms/LiftConstExprs/LiftConstExprs.cpp:249-253 | an instruction is pushed exactly when it has a liftable operand |
| LiftConstExprs.BlockPushesIff | lib/Transforms/LiftConstExprs/LiftConstExprs.cpp:247-254 | within a block, an instruction is pushed exactly when it is in the block and has a liftable operand |
| LiftConstExprs.PushesIff | lib/Transforms/LiftConstExprs/LiftConstExprs.cpp:246-255 | an instruction is in the initial worklist exactly when it is laid out and has a liftable operand |
| LiftConstExprs.InitialWorklist | lib/Transforms/LiftConstExprs/LiftConstExprs.cpp:246-258 | the initial worklist is within the function, is non-empty exactly when some operand is liftable, and leaves no instruction with a liftable operand out |
| LiftConstExprs.DoneStep | lib/Transforms/LiftConstExprs/LiftConstExprs.cpp:263-317 | processing the last worklist item keeps the loop invariant: the item is cleared and every new instruction is pushed |
| LiftConstExprs.Function.constructor | lib/Transforms/LiftConstExprs/LiftConstExprs.cpp:238 | a function holds the given instructions and layout |
| LiftConstExprs.Function.TerminatorOf | lib/Transforms/LiftConstExprs/LiftConstExprs.cpp:283-284 | `getTerminator` gives a block's last instruction when that is a terminator, and nothing otherwise |
| LiftConstExprs.Function.LiftConstExpr | lib/Transforms/LiftConstExprs/LiftConstExprs.cpp:125-235 | with a lifter case, the new instruction is appended to the function and placed before the insertion point when there is one; without one, nothing changes and the result says so |
| LiftConstExprs.Function.SetIncoming | lib/Transforms/LiftConstExprs/LiftConstExprs.cpp:289-298 | the loop of `setIncomingValue` calls changes only the phi's operands, as the phi update prescribes |
| LiftConstExprs.Function.LiftIncoming | lib/Transforms/LiftConstExprs/LiftConstExprs.cpp:283-300 | a liftable incoming value is lifted before the terminator of its incoming block, and the new instruction is written to its slot and the later slots from the same block |
| LiftConstExprs.Function.LiftPhi | lib/Transforms/LiftConstExprs/LiftConstExprs.cpp:271-302 | every liftable incoming value is lifted in slot order, the new instructions are pushed, and on success the phi has no liftable operand left; the remaining constant-expression weight drops by at least the number pushed |
| LiftConstExprs.Function.LiftOperand | lib/Transforms/LiftConstExprs/LiftConstExprs.cpp:308-314 | a liftable operand is lifted right before its user, and every use of it in the user is replaced by the new instruction |
| LiftConstExprs.Function.LiftUses | lib/Transforms/LiftConstExprs/LiftConstExprs.cpp:303-316 | every liftable operand is lifted in operand order, the new instructions are pushed, and on success the user has no liftable operand left; the remaining weight drops by at least the number pushed |
| LiftConstExprs.Function.LiftInstr | lib/Transforms/LiftConstExprs/LiftConstExprs.cpp:264-316 | one worklist item takes the phi case or the case of any other user |
| LiftConstExprs.Function.CollectWorklist | lib/Transforms/LiftConstExprs/LiftConstExprs.cpp:246-255 | the scan yields every laid-out instruction once per liftable operand, in layout order |
| LiftConstExprs.Function.RunOnFunction | lib/Transforms/LiftConstExprs/LiftConstExprs.cpp:237-320 | the pass reports a change exactly when the scan found something; it only adds instructions and only inserts them into blocks; on success no old laid-out or new instruction has a liftable operand left; it fails with "Unhandled constant expression!" only when something was liftable |
| LiftConstExprs.RerouteWeight | lib/Transforms/LiftConstExprs/LiftConstExprs.cpp:289-298 | the phi update removes at least the weight of the lifted slot |
| LiftConstExprs.ReroutedCleared | lib/Transforms/LiftConstExprs/LiftConstExprs.cpp:289-298 | the phi update leaves earlier slots alone and clears the lifted slot |
| LiftConstExprs.ReplaceCleared | lib/Transforms/LiftConstExprs/LiftConstExprs.cpp:312 | replacing the uses keeps the earlier operands clear and clears the lifted one |
| LiftConstExprs.ReplaceWeight | lib/Transforms/LiftConstExprs/LiftConstExprs.cpp:312 | replacing the uses removes at least the expression's weight |
| LowerGetElementPtr.CastToPtrSize | lib/Transforms/LowerGetElementPtr/LowerGetElementPtr.cpp:49-64 | an index of the pointer width is used as it is; a wider one gets one truncation and a narrower one one sign extension |
| LowerGetElementPtr.FlushShape | lib/Transforms/LowerGetElementPtr/LowerGetElementPtr.cpp:66-76 | the flush leaves no pending offset, only appends to the emitted code, and emits nothing exactly when the offset was zero |
| LowerGetElementPtr.VarStepShape | lib/Transforms/LowerGetElementPtr/LowerGetElementPtr.cpp:105-118 | a variable index emits the flush, the cast if any, a multiply exactly when the element size is not 1, and the add that gives the new pointer, in that order |
| LowerGetElementPtr.StepShape | lib/Transforms/LowerGetElementPtr/LowerGetElementPtr.cpp:95-119 | a struct field or a constant array index emits nothing and only moves the offset; any step only appends |
| LowerGetElementPtr.LowerFromCons | lib/Transforms/LowerGetElementPtr/LowerGetElementPtr.cpp:92-120 | lowering the indices from one on is one step and then lowering the rest |
| LowerGetElementPtr.FlushOffset | lib/Transforms/LowerGetElementPtr/LowerGetElementPtr.cpp:66-76 | `FlushOffset` adds the pending offset onto the pointer when it is not zero and resets it |
| LowerGetElementPtr.AddVariableIndex | lib/Transforms/LowerGetElementPtr/LowerGetElementPtr.cpp:105-118 | the variable-index branch flushes, casts, scales and adds |
| LowerGetElementPtr.LowerGEP | lib/Transforms/LowerGetElementPtr/LowerGetElementPtr.cpp:78-129 | the loop over the indices followed by the final flush and the inttoptr yields the replacement code |
| LowerGetElementPtr.LowerFromClean | lib/Transforms/LowerGetElementPtr/LowerGetElementPtr.cpp:92-120 | lowering only appends, and never emits a GEP or an add of a zero constant |
| LowerGetElementPtr.LoweredShape | lib/Transforms/LowerGetElementPtr/LowerGetElementPtr.cpp:78-129 | the replacement starts with the ptrtoint of the GEP's pointer, ends with the inttoptr that takes the GEP's name, holds no GEP and never adds a zero constant |
| LowerGetElementPtr.LowerFromConstant | lib/Transforms/LowerGetElementPtr/LowerGetElementPtr.cpp:96-104 | constant indices only move the offset and emit nothing |
| LowerGetElementPtr.ConstantGepFolds | lib/Transforms/LowerGetElementPtr/LowerGetElementPtr.cpp:85-90 | a GEP with constant indices only is folded completely: the ptrtoint, one add when the folded offset is not zero, and the inttoptr |
| LowerGetElementPtr.ExecEval | lib/Transforms/LowerGetElementPtr/LowerGetElementPtr.cpp:78-129 | the machine, which reduces every result to the pointer width, agrees with the unbounded integers modulo that width on every name after any code |
| LowerGetElementPtr.CastTracks | lib/Transforms/LowerGetElementPtr/LowerGetElementPtr.cpp:49-64 | the index cast to the pointer width is the index itself, up to the machine's reduction |
| LowerGetElementPtr.MulTracks | lib/Transforms/LowerGetElementPtr/LowerGetElementPtr.cpp:108-114 | the multiply by the element size scales the index and keeps every older name |
| LowerGetElementPtr.ScaleIndexTracks | lib/Transforms/LowerGetElementPtr/LowerGetElementPtr.cpp:107-114 | the cast and scaled index holds the index times the element size |
| LowerGetElementPtr.FlushTracks | lib/Transforms/LowerGetElementPtr/LowerGetElementPtr.cpp:66-76 | the flush keeps the tracked address |
| LowerGetElementPtr.VarStepTracks | lib/Transforms/LowerGetElementPtr/LowerGetElementPtr.cpp:105-118 | a variable index moves the tracked address by the index times the element size |
| LowerGetElementPtr.OffsetTracks | lib/Transforms/LowerGetElementPtr/LowerGetElementPtr.cpp:96-104 | moving the 64-bit running offset by `d`, with wrap-around, moves the tracked address by `d` |
| LowerGetElementPtr.StepTracks | lib/Transforms/LowerGetElementPtr/LowerGetElementPtr.cpp:95-119 | each index moves the tracked address by that index's offset |
| LowerGetElementPtr.LowerFromTracks | lib/Transforms/LowerGetElementPtr/LowerGetElementPtr.cpp:92-120 | the loop tracks the pointer plus every index's offset |
| LowerGetElementPtr.StartTracks | lib/Transforms/LowerGetElementPtr/LowerGetElementPtr.cpp:80-82 | the ptrtoint at the start tracks the GEP's pointer |
| LowerGetElementPtr.FinishTracks | lib/Transforms/LowerGetElementPtr/LowerGetElementPtr.cpp:121-124 | the inttoptr after the final flush holds the tracked address modulo 2^ptrBits on the machine |
| LowerGetElementPtr.LoweredComputesAddress | lib/Transforms/LowerGetElementPtr/LowerGetElementPtr.cpp:78-129 | run on any values of the pointer and the indices, the replacement leaves at the GEP's name the pointer plus every field offset and index times element size, modulo 2^ptrBits, for pointers of at most 64 bits |
| LowerGetElementPtr.LowerBlockStep | lib/Transforms/LowerGetElementPtr/LowerGetElementPtr.cpp:136-148 | one instruction of the block: a lowerable GEP is replaced by its code, anything else is kept |
| LowerGetElementPtr.LowerBlockChanged | lib/Transforms/LowerGetElementPtr/LowerGetElementPtr.cpp:131-150 | the pass reports a change exactly when the block holds a GEP whose pointer can be cast to the pointer-sized integer |
| LowerGetElementPtr.LowerBlockDone | lib/Transforms/LowerGetElementPtr/LowerGetElementPtr.cpp:131-150 | after the pass no lowerable GEP is left, and a block without one is left as it is |
| LowerGetElementPtr.BasicBlock.constructor | lib/Transforms/LowerGetElementPtr/LowerGetElementPtr.cpp:131-134 | a block holds the given instructions and its next free name |
| LowerGetElementPtr.BasicBlock.RunOnBasicBlock | lib/Transforms/LowerGetElementPtr/LowerGetElementPtr.cpp:131-150 | the walk, which moves past each instruction before lowering it, leaves the block, its next free name and the change flag exactly as the block pass defines them |
| UnisonDriver.Tokens | lib/CodeGen/UnisonDriver/UnisonDriver.cpp:396-399 | a flag string ending in a word character yields at least one word |
| UnisonDriver.TokensSpace | lib/CodeGen/UnisonDriver/UnisonDriver.cpp:396-399 | white space after the last word adds no word |
| UnisonDriver.TokensStart | lib/CodeGen/UnisonDriver/UnisonDriver.cpp:396-399 | a word character after white space starts a new word |
| UnisonDriver.TokensExtend | lib/CodeGen/UnisonDriver/UnisonDriver.cpp:396-399 | a word character after a word character extends the last word |
| UnisonDriver.TokensAreWords | lib/CodeGen/UnisonDriver/UnisonDriver.cpp:396-399 | every word read is non-empty and holds no white space |
| UnisonDriver.TokensCoverNonSpace | lib/CodeGen/UnisonDriver/UnisonDriver.cpp:396-399 | the words, joined, are the flag string's characters other than white space, in order |
| UnisonDriver.TokensOfWord | lib/CodeGen/UnisonDriver/UnisonDriver.cpp:396-399 | a string of word characters is read as that one word |
| UnisonDriver.TokensSeparated | lib/CodeGen/UnisonDriver/UnisonDriver.cpp:396-399 | a white-space character splits the string into two parts whose words are read independently: no word spans white space |
| UnisonDriver.TokensOfJoined | lib/CodeGen/UnisonDriver/UnisonDriver.cpp:396-399 | words joined by white space are read back as exactly those words, so every word read is maximal |
| UnisonDriver.ExtendWord | lib/CodeGen/UnisonDriver/UnisonDriver.cpp:396-399 | reading one more word character keeps the vector equal to the prefix followed by the words read so far |
| UnisonDriver.InsertFlags | lib/CodeGen/UnisonDriver/UnisonDriver.cpp:393-402 | `insertFlags`, reading character by character, appends the words of the flag string and then "--lint" exactly when asked |
| UnisonDriver.FlagsInsertedLint | lib/CodeGen/UnisonDriver/UnisonDriver.cpp:400-401 | with the lint flag the arguments are those without it followed by "--lint" |
| UnisonDriver.HasUnisonAnnotation | lib/CodeGen/UnisonDriver/UnisonDriver.cpp:323-347 | the scan answers true exactly when the table exists and holds an entry for the function, or for any function when none is given, whose variable holds "unison" |
| UnisonDriver.AnnotationForAnyFunction | lib/CodeGen/UnisonDriver/UnisonDriver.cpp:321-322 | an annotation for a named function is an annotation for some function |
| UnisonDriver.ActivationFilter | lib/CodeGen/UnisonDriver/UnisonDriver.cpp:154-169 | the pipeline runs only under `-unison` or an annotation, and a non-empty single-function name restricts it to exactly that function |
| UnisonDriver.TargetName | lib/CodeGen/UnisonDriver/UnisonDriver.cpp:175-185 | Hexagon is chosen exactly for the hexagonv4 CPU, ARM exactly for the arm1156t2f-s, and every other target has no name |
| UnisonDriver.Programs | lib/CodeGen/UnisonDriver/UnisonDriver.cpp:171-173 | the three programs are found exactly when each is on the path, and otherwise the message names a missing one |
| UnisonDriver.WithLint | lib/CodeGen/UnisonDriver/UnisonDriver.cpp:77-80 | the lint option is set to the given value |
| UnisonDriver.UniCommandLint | lib/CodeGen/UnisonDriver/UnisonDriver.cpp:369-379 | a `uni` command whose extra arguments gain "--lint" gains it at its end |
| UnisonDriver.LintOnlyEarlyStages | lib/CodeGen/UnisonDriver/UnisonDriver.cpp:207-240 | with the lint option import, linearize, extend and augment get "--lint" after the arguments they get without it |
| UnisonDriver.LintIgnoredByLaterStages | lib/CodeGen/UnisonDriver/UnisonDriver.cpp:247-295 | normalize, model, the presolver, the solver and export do not depend on the lint option |
| UnisonDriver.StageDataFlow | lib/CodeGen/UnisonDriver/UnisonDriver.cpp:187-296 | each stage reads the file the stage it depends on writes: import the input MIR file, normalize the baseline, model the augmented program with normalize's output as base file, the presolver model's output, the solver the presolver's, export the augmented program, the base file and the solution |
| UnisonDriver.FirstFailure | lib/CodeGen/UnisonDriver/UnisonDriver.cpp:209-296 | the first stage whose command fails: all earlier ones succeed, and it fails unless it is 9, which means none failed |
| UnisonDriver.FirstFailureAt | lib/CodeGen/UnisonDriver/UnisonDriver.cpp:349-354 | the stage that fails after all earlier ones succeeded is the first failure |
| UnisonDriver.SucceededNext | lib/CodeGen/UnisonDriver/UnisonDriver.cpp:209-296 | a successful stage extends the successful prefix |
| UnisonDriver.RanWithNext | lib/CodeGen/UnisonDriver/UnisonDriver.cpp:356-379 | running a stage records its command and its temporary file |
| UnisonDriver.FinishedAfterSuccess | lib/CodeGen/UnisonDriver/UnisonDriver.cpp:298-318 | after nine successful stages the reload and the cleaning finish the run with the blocks parsed from export's output |
| UnisonDriver.FinishedAfterFailure | lib/CodeGen/UnisonDriver/UnisonDriver.cpp:349-354 | after a failing stage the cleaning ends the run with that stage's message and the blocks unchanged |
| UnisonDriver.Driver.constructor | lib/CodeGen/UnisonDriver/UnisonDriver.cpp:131-137 | a fresh driver holds the options, the host and the input MIR file, with no temporary file, no command and no target |
| UnisonDriver.Driver.MakeTempFile | lib/CodeGen/UnisonDriver/UnisonDriver.cpp:356-367 | `makeTempFile` returns a fresh path and appends it to the remembered files |
| UnisonDriver.Driver.CleanPaths | lib/CodeGen/UnisonDriver/UnisonDriver.cpp:381-391 | `cleanPaths` removes every remembered file, in order, and forgets them, unless no-clean is set, when it changes nothing |
| UnisonDriver.Driver.Run | lib/CodeGen/UnisonDriver/UnisonDriver.cpp:427-445 | a command succeeds exactly when the program exits with status 0, and it is recorded as run |
| UnisonDriver.Driver.RunTool | lib/CodeGen/UnisonDriver/UnisonDriver.cpp:369-379 | `runTool` runs `uni` with the tool, the target, the input, `-o`, the output and the extra arguments |
| UnisonDriver.Driver.UniStage | lib/CodeGen/UnisonDriver/UnisonDriver.cpp:198-250 | one `uni` stage creates its output file and runs its command, extending the stages that ran and, on success, the ones that succeeded |
| UnisonDriver.Driver.GecodeStage | lib/CodeGen/UnisonDriver/UnisonDriver.cpp:263-285 | the presolver or the solver: the program name, `-o`, its output, the fixed arguments, the flags and the input last |
| UnisonDriver.Driver.Abort | lib/CodeGen/UnisonDriver/UnisonDriver.cpp:349-354 | `ensure` on a failure cleans the temporary files and ends the run with the stage's message |
| UnisonDriver.Driver.RunStages | lib/CodeGen/UnisonDriver/UnisonDriver.cpp:187-318 | steps 0 to 10 end as the run defines: replaced blocks after nine successes, otherwise the first failing stage's message |
| UnisonDriver.Driver.Import | lib/CodeGen/UnisonDriver/UnisonDriver.cpp:198-210 | import and the steps after it finish the run |
| UnisonDriver.Driver.Linearize | lib/CodeGen/UnisonDriver/UnisonDriver.cpp:212-220 | linearize and the steps after it finish the run |
| UnisonDriver.Driver.Extend | lib/CodeGen/UnisonDriver/UnisonDriver.cpp:222-230 | extend and the steps after it finish the run |
| UnisonDriver.Driver.Augment | lib/CodeGen/UnisonDriver/UnisonDriver.cpp:232-240 | augment and the steps after it finish the run |
| UnisonDriver.Driver.Normalize | lib/CodeGen/UnisonDriver/UnisonDriver.cpp:242-250 | normalize and the steps after it finish the run |
| UnisonDriver.Driver.Model | lib/CodeGen/UnisonDriver/UnisonDriver.cpp:252-261 | model and the steps after it finish the run |
| UnisonDriver.Driver.Presolve | lib/CodeGen/UnisonDriver/UnisonDriver.cpp:263-273 | the presolver and the steps after it finish the run |
| UnisonDriver.Driver.Solve | lib/CodeGen/UnisonDriver/UnisonDriver.cpp:275-285 | the solver and the steps after it finish the run |
| UnisonDriver.Driver.Export | lib/CodeGen/UnisonDriver/UnisonDriver.cpp:287-318 | export and the reload finish the run; on success the blocks are those parsed from export's output |
| UnisonDriver.Driver.RunOnMachineFunction | lib/CodeGen/UnisonDriver/UnisonDriver.cpp:151-319 | a function the pipeline is not activated for is left as it is, nothing runs and the files are cleaned; otherwise a missing program or an unsupported target is fatal before anything runs, and else the stages run |
| UnisonDriver.Driver.LoadPrograms | lib/CodeGen/UnisonDriver/UnisonDriver.cpp:408-416 | the three lookups succeed exactly when every program is found, set the three paths, and otherwise report the first missing program |
| UnisonDriver.Driver.Launch | lib/CodeGen/UnisonDriver/UnisonDriver.cpp:170-318 | after activation: the programs, the target flag and then the stages, or a fatal error before any of them |
| UnisonDriver.Driver.FinishedOutcome | lib/CodeGen/UnisonDriver/UnisonDriver.cpp:209-318 | the blocks are replaced exactly when all nine stages succeed; otherwise the message is that of a stage after whose failure no further command ran; the temporary files are gone unless no-clean is set |
| UnisonDriver.Driver.Destroy | lib/CodeGen/UnisonDriver/UnisonDriver.cpp:139-144 | the destructor removes the input MIR file and the baseline, unless no-clean is set |

## Left out

- Pass registration, `getAnalysisUsage`, pass names and debug output (`DEBUG`, `errs()` messages, `-unison-verbose` printing) have no effect on the modelled state.
- The TableGen `Record`, `DagInit` and `DefInit` accessors are replaced by a plain record value that lists the fields it has. The record table is a map from names.
- The host queries are parameters, never reimplemented: `MIsNeedChainEdge`, `computeInstrLatency`, `AnalyzeBranch`, `canFallThrough`, `isExtended`/`isConstExtended`, `isVirtualRegister`, `getRegClass`, `getRegClassWeight`, block frequencies, `castIsValid` (the pointer-cast flag of a GEP) and `findProgramByName`.
- MemoryAlias.MemoryAliasPass.GetAccessPartition: `MP` is keyed by instruction pointer; the model identifies an instruction by its function (a parameter of the run), block and position instead. If the same function is analysed again after its blocks changed, a position that held an access keeps its old entry, where the pointer-keyed map has no entry for a new instruction there.
- MemoryAlias.MemoryAliasPass.RunOnMachineFunction: the order in which `EquivalenceClasses` lists its leaders is a parameter (any permutation), not LLVM's container order.
- Process and file I/O in the driver are oracles of the `Host` value: temporary-file creation, process execution and exit status, file removal, MIR printing of the baseline file, and MIR parsing and reload. Running out of memory while building `argv` is not modelled.
- UnisonDriver.Driver.RunOnMachineFunction: an unsupported target or a missing program ends the run with `Fatal` as soon as it is found. The model does not capture that `report_fatal_error` ends the whole process, and it does not model a temporary file that cannot be created (`std::abort`).
- UnisonDriver.Driver.LoadPrograms: only the three lookups and the first failure are modelled, not the process exit that follows it.
- `hasUnisonAnnotation` walks the `llvm.global.annotations` constant. Here that constant is a list of entries, each with an optional function and an optional annotation string. `None` stands for a missing global and for a failed `dyn_cast`.
- `LowerGetElementPtr`: the `DataLayout` is folded into the GEP's types as field offsets and element sizes. Pointers wider than 64 bits are outside the address theorem `LowerGetElementPtr.LoweredComputesAddress`. `replaceAllUsesWith` is modelled by the `inttoptr` taking the GEP's name. The `assert` on the current type is not modelled.
- `LiftConstExprs`: values are trees over an instruction table, so the use lists and the uniquing of LLVM constants are not modelled. After the failed `assert` in the lifter's default case a release build falls off the end of the function; the model stops with a failure instead.
- `WeightedIPB`: `double` is modelled as exact `real` arithmetic, NaN as `None`, and rounding is not modelled.
- `MachineCodeStats`: the standard deviation, the coefficient of variation and its fixed-point printing are not modelled (square root and `double` formatting).
- MachineCodeStats.MachineCodeStatsPass.RunOnMachineFunction: the mean is returned as the `unsigned` value the code computes; its widening to `double` and the standard deviation and coefficient of variation printed from it are not modelled. A weight count that wraps to 0 divides by zero in the code and gives `None` here.
- TrivialBranchFolding.EraseUnconditionalBranches: when the erased branch is the block's first instruction, the code goes on to compare with an end iterator whose node was erased, which is undefined; the model ends the walk there.
- ExtractAll.Run: module loading, global-value extraction, `materialize` errors, and the writing of bitcode or assembly are left out. Whether an output file opens is the parameter `canWrite`.
- `ISelCost` and `MachineCodeStats` print through `errs()`. The model returns the text, or updates the counters, instead of writing to a stream.
- ISelCost.RunOnMachineFunction: the total is an unbounded integer. The overflow of the source's `int` accumulator is not modelled.
- The statistics counters of `MachineCodeStats` and the block counts of `WeightedIPB` are unbounded integers, and their wrap-around is not modelled. The mean of the register-class weights is the exception: the wrap of its `unsigned` sum and size is modelled in `MachineCodeStats.MeanAsWritten`, see Findings.
- UnisonText.Lower: strings are sequences of Unicode characters and only ASCII upper case is lowered. The code applies `std::tolower` to `char` bytes, which is undefined for negative `char` values (bytes 0x80 and above); names are assumed ASCII.

## Findings

| source | as written | input that shows it | evidently intended | confidence | as-written member | corrected member |
|---|---|---|---|---|---|---|
| include/llvm/CodeGen/MachineCodeStats.h:60-65 (called at lib/CodeGen/MachineCodeStats.cpp:120) | `mean` is instantiated with `T = unsigned` because `weights` is a `std::vector<unsigned>`, so the sum wraps modulo 2^32 and the division truncates before the result is widened to `double` | weights [1, 2] give 1 instead of 1.5; weights [2^32 - 1, 2^32 - 1] give 2^31 - 1, which is below every weight | the arithmetic mean as a `double`, which lies between the smallest and the largest weight | not executed | MachineCodeStats.MeanAsWrittenTruncates | MachineCodeStats.MeanBounds |
| lib/CodeGen/TrivialBranchFolding.cpp:89-95 | the loop walks a `std::reverse_iterator`; after `MI->eraseFromParent()`, `++MI` moves the iterator's base onto the erased instruction's predecessor, so that predecessor is never examined | a qualifying block ending in two unconditional branches `B x; B y` keeps `B x`, and a second run of the pass erases it | remove every unconditional branch, as the comment at lines 87-88 says | not executed | TrivialBranchFolding.WalkSkipsBranch | TrivialBranchFolding.FoldLeavesNoBranch |
