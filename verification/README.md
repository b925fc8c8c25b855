# Packed trees, regions and tables of the Gibbon runtime

Gibbon compiles tree programs to code over bytes: a value is a run of tagged nodes in a
chain of growing chunks, and a program is a set of cursors. This project models that code
over a byte-addressed memory and proves that it means what the program on trees means. It
also models the hash table the runtime keeps its sets and symbols in, and three smaller
programs from the micro-benchmarks.

Verify it with `dafny verify dfyconfig.toml` (Dafny 4.11).

## What is modelled

| files | part of the repository |
|---|---|
| `Bits`, `Memory`, `Runtime`, `Chains`, `Growth` | tagged pointers, the allocator, nursery and old-generation chunks and their footers, `gib_grow_region`, chains of chunks and their sizes |
| `Trees`, `PackedTree`, `AosWriters`, `AosTree`, `AosInPlace`, `AosFlatten`, `TreeSums`, `TreePaths`, `AosPipeline` | the array-of-structs tree programs, by value and with cursors updated in place |
| `SoaTree`, `SoaWriters`, `SoaPrograms`, `SoaCopy`, `SoaPipeline` | the struct-of-arrays programs over three buffers |
| `WriteBarrier` | `gib_indirection_barrier` over whole runs |
| `DoublyLinked`, `Buckets`, `BucketExpansion`, `LoadBound`, `UtHash`, `StableSort`, `UtHashSort`, `UtHashMap`, `UtHashRuns` | uthash: both linked structures, expansion, sort, and the map they implement |
| `FooTrees`, `PackedFoo`, `FooWriters`, `SumFoo` | the parallel sum with random-access pointers |
| `RegionCounts` | reference counts and the cascading free |
| `OffsetTable`, `Rightmost` | the factored-out offset table and jumps over chunks |

Memory is a map from allocated addresses to bytes. `malloc` returns any unused range below
2^48 or fails; a failure ends the program (`Exit`). `failedAllocs` counts failures, and
the contracts say that a program ends early exactly when one more allocation failed: no
unknown tag, no write outside the window it was given. There are three kinds of exception.
The in-place programs have no case for indirections and also exit on input with one;
`sumFoo_seq` and `sumFoo` exit at big nodes where they expect none; and the model of the
three-buffer `_copy_Tree` stops where the program would write over a footer. `Layout` (and its counterparts
`SoaLayout` and `Cells`) is a tree as it lies in memory, redirections and indirections
included; `At` says that memory holds it, `EndOf` where it ends, and `DecodeUnique` that
memory determines it.

## What the proofs found

- `_traverse_Tree`, `sumTree`, `add1Tree` and `_copy_Tree` hand back an "end of input
  region". After a redirection it is the start of the chunk, not its footer. It is the
  footer of the chunk the reader stands in exactly when the value crosses no redirection
  (`AosTree.ReportedEndExact`): for a value a writer has left, exactly when the region has
  not grown, and never when the writer started with less than 18 bytes in its chunk
  (`AosTree.ReportedEndOfWritten`). Trees, sums and all other cursors are, by the
  contracts of the four programs, the same whatever end they are passed.
- A chunk grown from a nursery chunk has no size cap, but its footer offset is stored in
  16 bits. It is recovered exactly for nursery chunks of at most 32776 bytes
  (`Growth.PromotedOffset`, counterexample `Growth.PromotedOffsetLost`).
- Growth inside the nursery doubles the size the old footer records, and records it in 16
  bits. A size is recorded exactly if it fits (`Growth.RecordedExact`); the first n growths
  all record exactly if and only if first * 2^n < 2^16 (`Growth.AllRecordedIff`). Whatever
  the first size, one of the first 16 growths records 0, and every later chunk is empty:
  its footer lies where its data should start (`Growth.SizeLost`). From the default 512
  bytes it is the seventh (`Growth.DefaultSizeLost`).
- `rightmost` reads a table offset of 0 as 1. The table cursor it holds is every inner
  node's own table exactly on the trees we call harmless (`Rightmost.OnTrackIff`), among
  them every tree of the shape `mkFoo` builds (`Rightmost.MkHarmless`). Off its track it
  never reads the offset the table has (`Rightmost.MisreadOffset`). `Rightmost.FindRightmost`
  covers trees that are not harmless as well, where the first node off the track starts
  with a leaf b and the offset read there is 0, as it is for every B node and for a C node
  whose second child is a leaf: the result is b whatever follows, a wrong one unless that
  is the rightmost leaf's value (`Rightmost.QuirkReturns`).
- `sumFoo` follows indirections as if they were redirections. It looks for every child
  where it lies if and only if no child that is followed by another, below a node that is
  not big, ends in one (`PackedFoo.InPlaceIff`). On such a value the cursor it returns is
  the end of the value if and only if the value does not end in an indirection; on any
  value that does end in one it is not (`PackedFoo.ReadStopExact`). On other values it may
  read something else and stop elsewhere, although the value ends in a leaf
  (`PackedFoo.StrayRead`). `mkFoo` writes no indirections.
- `free_region` frees the cells of a region's outset, but leaves the pointer to them in the
  footer. A call from outside touches no freed memory if and only if the region's count is
  0, or its outset is empty, or some region points to it that the call does not free; it
  then frees exactly the regions that nobody else keeps (`RegionCounts.Regions.FreeRoot`).
  It leaves no pointer to freed cells behind if and only if the count is 0 or the outset is
  empty; any other region cannot be freed again, as it would be when its count drops to 0
  (`RegionCounts.Regions.FreeTwice`, `RegionCounts.FreeMiddle`). Two regions that point at
  each other, or one that only names itself, touch freed cells in the first call
  (`RegionCounts.FreeCycle`, `RegionCounts.FreeLoop`).
- Over three buffers `_copy_Tree` goes on at an indirection with the cursors it was given
  and the chunk ends after growth. Where the buffers had to grow it is then astray: it
  stands in the old chunks and checks its cursors against the ends of the new ones. What
  happens depends on the addresses `malloc` returns; `SoaCopy.Run` computes it from them, and
  `SoaCopy.CopyTree` shows that for every input the copy is right, or writes over a footer,
  exactly as computed. Unless all three new chunks lie above the old ones the copy grows
  once more at the old cursors (`SoaCopy.RegrowsIff`); the chunks of the first growth stay
  unused. If they all do, it writes on into the old chunks and never grows again
  (`SoaCopy.GoesOn`). So, for an indirection to a value without others, it writes over a
  footer if and only if all three new chunks lie above the old ones and the tree does not
  fit what is left of those (`SoaCopy.OverrunsIff`). An indirection to a node with two
  leaves, met with less than 16 bytes left for leaves, is the smallest such input
  (`SoaCopy.TwoLeaves`).
- `mkTree` returns the cursor it was given in the struct-of-arrays version, and the cursor
  after growth in the array-of-structs version; both decode to the tree.

## Model

| member | source | states |
|---|---|---|
| Memory.TagRoundTrip | gibbon-rts/rts-c/gibbon_rts.h:179-190 | a 48-bit pointer and a 16-bit tag come back unchanged from the 64-bit word they are stored in |
| Memory.StoreTag | gibbon-rts/rts-c/gibbon_rts.h:183-184 | the shift and OR yield the word from which pointer and tag are recovered |
| Memory.Untag | gibbon-rts/rts-c/gibbon_rts.h:186-187 | the mask yields the address modulo 2^48 |
| Memory.AlignUp | gibbon-rts/rts-c/gibbon_rts.h:210-212 | the mask arithmetic is rounding up to the next multiple of 8 |
| Runtime.GrownPayloadBounds | gibbon-rts/rts-c/gibbon_rts.h:806-813 | a grown old-generation chunk at least doubles the payload or has the maximal size, and never exceeds 65504 bytes with its footer |
| Runtime.Runtime.Malloc | gibbon-rts/rts-c/gibbon_rts.h:920-926 | what an allocation promises: a range unused before, nothing else changed, or failure |
| Runtime.Runtime.AllocRegion | gibbon-rts/rts-c/gibbon_rts.c:1208-1224 | a first chunk of the requested size rounded up to 8, footer in its last 24 bytes, outside the nursery, with region information of its own, all of it fresh |
| Runtime.Runtime.AllocChunk | gibbon-rts/rts-c/gibbon_rts.h:913-950 | the next chunk is fresh, sized by the growth rule, shares the region information and is linked from the old footer; only that link changes in old memory |
| Runtime.Runtime.PromoteChunk | gibbon-rts/rts-c/gibbon_rts.h:937-941 | behind a nursery chunk the next one starts a region of its own on the heap, of twice the recorded size; the nursery footer is untouched |
| Runtime.Runtime.GrowRegion | gibbon-rts/rts-c/gibbon_rts.h:794-847 | for every footer whose successor is not smaller than its own footer, and every cursor apart from it: the cursor holds a redirection to a fresh heap chunk of the size its generation demands, with the footer offset modulo 2^16; besides fresh memory only that cell and the old footer change. Within 29 to 32776 bytes in the nursery the offset is exact and there is room for a node |
| Growth.DoubledUpToCap | gibbon-rts/rts-c/gibbon_rts.h:806-813 | the nth chunk of a region has min(first * 2^n, 65504) bytes |
| Growth.NeverShrinks | gibbon-rts/rts-c/gibbon_rts.h:806-813 | from any first chunk of at most 65504 bytes on, sizes never shrink and never exceed 65504 |
| Growth.ChainSizes | gibbon-rts/rts-c/gibbon_rts.h:942-960 | the footer offset in the ith redirection of a written value is the size the growth rule gives the ith chunk, from a first chunk of either generation, and that chunk's footer records the same |
| Growth.PromotedFits | gibbon-rts/rts-c/gibbon_rts.h:800-804 | the chunk behind a nursery chunk holds its own footer if and only if the old one records at least 9 bytes |
| Growth.PromotedOffset | gibbon-rts/rts-c/gibbon_rts.h:800-804 | growing a nursery chunk on the heap loses the footer offset if and only if it is larger than 32776 bytes |
| Growth.PromotedOffsetLost | gibbon-rts/rts-c/gibbon_rts.h:954-955 | a nursery chunk of 40000 bytes: offset 79976 is read back as 14440 |
| Growth.RecordedIsTruncated | gibbon-rts/rts-c/gibbon_rts.h:800-878 | although each growth doubles what the last one recorded, the nth recorded size is first * 2^n modulo 2^16 |
| Growth.RecordedExact | gibbon-rts/rts-c/gibbon_rts.h:800-878 | a footer records the bytes of its chunk, twice the size recorded before, if and only if they are fewer than 2^16 |
| Growth.AllRecordedIff | gibbon-rts/rts-c/gibbon_rts.h:800-878 | n growths in a row record exactly if and only if first * 2^n < 2^16 |
| Growth.SizeLost | gibbon-rts/rts-c/gibbon_rts.h:800-878 | from every first size a growth no later than the 16th records 0, and the next chunk has no bytes |
| Growth.DefaultSizeLost | gibbon-rts/rts-c/gibbon_rts.h:625-636 | starting from 512 bytes six growths record exactly, the seventh records 0 for 65536 bytes, the eighth chunk is empty |
| PackedTree.DecodeUnique | microbench/manual_soa_examples/MonoTree.aos.orig.c:593-682 | memory determines the layout, hence the tree and the cursor behind it |
| PackedTree.FrameAt | microbench/manual_soa_examples/MonoTree.aos.orig.c:593-682 | a value survives every write that keeps off its bytes, wherever they lie |
| Chains.ChainAppend | gibbon-rts/rts-c/gibbon_rts.c:950-960 | if one value's redirections enumerate the footers up to a chunk and the next value's from there on, together they enumerate all of them in order, outside what may still be written |
| Chains.ChainAcyclic | gibbon-rts/rts-c/gibbon_rts.h:942-950 | every footer of the chain links to the next chunk's, and none is met twice |
| Chains.NewChunksAppend | gibbon-rts/rts-c/gibbon_rts.h:942-975 | the chunks two consecutive writers have added are all fresh and pairwise disjoint |
| AosWriters.LeafWritten | microbench/manual_soa_examples/MonoTree.aos.orig.c:542-559 | a leaf written with 18 bytes left is a written value: decodable, inside the window, room for a redirection behind it |
| AosWriters.NodeWritten | microbench/manual_soa_examples/MonoTree.aos.orig.c:560-592 | a header and two values written one after the other are one written value, through any growth in between: bytes, window, chain and chunks |
| AosWriters.GrownWritten | microbench/manual_soa_examples/MonoTree.aos.orig.c:538-541 | a value written after growing is a written value at the cursor before growing |
| AosWriters.Survives | microbench/manual_soa_examples/MonoTree.aos.orig.c:149-291 | a value outside a writer's window is still there afterwards and outside the window it leaves |
| AosTree.MkTree | microbench/manual_soa_examples/MonoTree.aos.orig.c:534-592 | for every depth and accumulator, from every writable cursor in a chunk of either generation: the bytes decode to the pure tree and end at the returned cursor, a redirection lies at a node's cursor if and only if less than 18 bytes were left there, footers and redirections name the same fresh disjoint chunks, which are all that growth has handed out, nothing else changes |
| AosTree.Add1Tree | microbench/manual_soa_examples/MonoTree.aos.orig.c:149-291 | for every decodable input, redirections and indirections included: the output decodes to the incremented tree, redirected as for mkTree, and the input cursor is where the input ends |
| AosTree.CopyTree | microbench/manual_soa_examples/MonoTree.aos.orig.c:292-432 | the output decodes to the input's tree, without indirections, redirected as for mkTree |
| AosTree.UngrownIff | microbench/manual_soa_examples/MonoTree.aos.orig.c:534-592 | a tree is written without a redirection, in 9 bytes a node, if and only if there is room for that and 9 bytes more |
| AosTree.PacedUnique | microbench/manual_soa_examples/MonoTree.aos.orig.c:534-592 | a tree, the cursor and end it is written at and the chunks handed out decide the whole layout |
| AosTree.SumTree | microbench/manual_soa_examples/MonoTree.aos.orig.c:433-533 | the sum of the decoded tree modulo 2^64, and the exact end cursor |
| AosTree.TraverseTree | microbench/manual_soa_examples/MonoTree.aos.orig.c:593-682 | the exact end cursor of every decodable value |
| AosTree.EndsFromLastRedirection | microbench/manual_soa_examples/MonoTree.aos.orig.c:655-676 | both the reported end and the true footer come from the last redirection crossed |
| AosTree.ReportedEndExact | microbench/manual_soa_examples/MonoTree.aos.orig.c:655-676 | the reported end is the true footer if and only if no redirection is crossed |
| AosTree.ReportedEndOfWritten | microbench/manual_soa_examples/MonoTree.aos.orig.c:538-541 | the value a writer leaves ends in the writer's chunk; the end readers report for it is that chunk's footer if and only if there was no growth, hence never from a cursor with less than 18 bytes left |
| AosInPlace.Add1Tree | microbench/manual_soa_examples/MonoTree.aos.c:151-315 | the mutated cursors end where the value-passing version's results are, and the output decodes to the same tree; apart from failed allocations it exits if and only if the input has an indirection |
| AosInPlace.SumTree | microbench/manual_soa_examples/MonoTree.aos.c:458-573 | the accumulator grows by exactly the sum of the tree, the cursor ends behind the value; it exits if and only if the input has an indirection |
| AosFlatten.CopyWithoutPtrs | microbench/manual_soa_examples/MonoTree.aos.orig.c:787-923 | exactly 9 bytes per node are written, contiguously; they are the flat layout of the tree the input decodes to |
| AosFlatten.FlatBasics | microbench/manual_soa_examples/MonoTree.aos.orig.c:787-923 | the flat layout decodes back to the tree and takes 9 bytes per node |
| AosFlatten.FlatIffBytes | microbench/manual_soa_examples/MonoTree.aos.orig.c:787-923 | a buffer holds the flat layout if and only if its bytes are the tree's serialization |
| TreePaths.MadeAt | microbench/manual_soa_examples/MonoTree.aos.orig.c:534-592 | mkTree d acc: the paths from the root are those of at most d steps; after d of them there is a leaf with acc + d(d+1)/2 modulo 2^64, after k < d an inner node with d - k |
| TreePaths.IncrementedAt | microbench/manual_soa_examples/MonoTree.aos.orig.c:149-291 | add1Tree: the same paths and kinds of node, and at the end of every path one more modulo 2^64 |
| TreePaths.PathsDetermine | microbench/manual_soa_examples/MonoTree.aos.orig.c:534-592 | a tree is determined by its paths and the values at their ends |
| TreePaths.SumOfValues | microbench/manual_soa_examples/MonoTree.aos.orig.c:433-533 | sumTree: the sum of all values modulo 2^64 |
| TreeSums.MkSumClosed | microbench/manual_soa_examples/MonoTree.aos.orig.c:534-592 | the sum of the built tree is 2^d (acc + d(d+1)/2) + 2^(d+1) - d - 2 |
| TreeSums.SumOfMk | microbench/manual_soa_examples/MonoTree.aos.orig.c:534-592 | summing with wrap-around is wrapping the unbounded sum |
| TreeSums.SumOfAdd1 | microbench/manual_soa_examples/MonoTree.aos.orig.c:149-291 | incrementing adds the number of nodes to the sum |
| TreeSums.NodesOfMk | microbench/manual_soa_examples/MonoTree.aos.orig.c:534-592 | a tree of depth d has 2^(d+1) - 1 nodes |
| TreeSums.PipelineSum | microbench/manual_soa_examples/MonoTree.aos.orig.c:924-1048 | the closed form of the whole pipeline modulo 2^64 |
| AosPipeline.SumOfIncremented | microbench/manual_soa_examples/MonoTree.aos.orig.c:924-1048 | build, increment into a second region, sum: 2^d (acc + d(d+1)/2) + 2^(d+2) - d - 3 modulo 2^64, over fragmented memory |
| SoaTree.DecodeUnique | microbench/manual_soa_examples/MonoTree.soa.c:1158-1342 | the three buffers determine the layout |
| SoaTree.FrameAt | microbench/manual_soa_examples/MonoTree.soa.c:1158-1342 | a value over three buffers survives a writer that keeps off all of it |
| SoaWriters.GrowAll | microbench/manual_soa_examples/MonoTree.soa.c:1074-1079 | from three cells of 9 bytes and three footers apart from them, whether or not they belong to the same chunks: all three buffers redirect together, to fresh disjoint chunks with enough room that continue the chains of the footers |
| SoaWriters.NodeWritten | microbench/manual_soa_examples/MonoTree.soa.c:1099-1157 | a tag, an inner integer and two written values are one written value over three buffers: bytes, windows, the chain of each buffer, and the chunks |
| SoaWriters.ExtendedAppend | microbench/manual_soa_examples/MonoTree.soa.c:1099-1157 | in every buffer, the second of two writers leaves the chain of footers of the first alone, wherever it may write, and continues it |
| SoaWriters.GrownWritten | microbench/manual_soa_examples/MonoTree.soa.c:1074-1079 | a value written after growing all three buffers is a written value at the cursors before |
| SoaWriters.StrayWritten | microbench/manual_soa_examples/MonoTree.soa.c:716-717 | a value written after growth at the cursors before it is a written value as well; the chunks added are in the chains, but no redirection leads to them |
| SoaPrograms.MkTree | microbench/manual_soa_examples/MonoTree.soa.c:1062-1157 | the three output buffers decode to the pure tree, redirecting in lock step, if and only if less than 34 bytes were left for tags or less than 17 for integers; in each buffer footers and redirections name the same chunks in the same order, and all chunks are fresh, disjoint and all that growth has handed out |
| SoaPrograms.Add1Tree | microbench/manual_soa_examples/MonoTree.soa.c:168-518 | the three output buffers decode to the incremented tree, redirections and chains as for mkTree; the input cursors end behind the input in all three buffers; apart from failed allocations it exits if and only if the input has an indirection |
| SoaCopy.UngrownIff | microbench/manual_soa_examples/MonoTree.soa.c:1062-1157 | a tree is written without a redirection if and only if there are as many bytes for tags as nodes and 33 more, 8 bytes for each leaf and 9 more, and 8 bytes for each inner node and 17 more |
| SoaCopy.CopyTree | microbench/manual_soa_examples/MonoTree.soa.c:520-820 | on every decodable input, from cursors astray or not: the output decodes to the same tree, also from the start cursors returned, and nothing outside its windows changes; it stops short of writing over a footer if and only if the run on the chunks it has been given does, and ends where that run ends. Those are, in order, all chunks growth has handed out meanwhile (and at most two more where the next allocation failed). On input without indirections, told where it stands, it never does, and its redirections and chains are as for mkTree |
| SoaCopy.NeverOverruns | microbench/manual_soa_examples/MonoTree.soa.c:520-820 | no run that is told where it stands, on input without indirections, writes over a footer, whatever chunks it is given |
| SoaCopy.RegrowsIff | microbench/manual_soa_examples/MonoTree.soa.c:532-537 | the bounds check of the call at an indirection passes if and only if all three new chunks lie above the old ones |
| SoaCopy.RegrowthHelps | microbench/manual_soa_examples/MonoTree.soa.c:532-537 | otherwise, for an indirection to a value without others, no run writes over a footer |
| SoaCopy.GoesOn | microbench/manual_soa_examples/MonoTree.soa.c:532-537 | told ends behind the chunks it stands in, a run of any length on any input never grows: it writes the tree exactly where it stands, or overruns if and only if tags, leaf integers or inner integers do not fit there |
| SoaCopy.OverrunsIff | microbench/manual_soa_examples/MonoTree.soa.c:716-717 | an indirection met when full, in whatever chunks: besides lack of room for the redirections, a run writes over a footer if and only if all three new chunks lie above the old ones and the tree does not fit what is left of those; where they do not, for a target without further indirections |
| SoaCopy.TwoLeaves | microbench/manual_soa_examples/MonoTree.soa.c:716-717 | for an indirection to a node with two leaves, met when a buffer is full and the new chunks lie above: it does if and only if less than 16 bytes are left for leaves |
| SoaPrograms.SumTree | microbench/manual_soa_examples/MonoTree.soa.c:822-1059 | the accumulator grows by the sum, all three cursors end behind the value; it exits if and only if the value has an indirection |
| SoaPrograms.TraverseTree | microbench/manual_soa_examples/MonoTree.soa.c:1158-1342 | the exact end cursors in all three buffers of every decodable value, indirections included |
| SoaPrograms.EndsFromLastRedirection | microbench/manual_soa_examples/MonoTree.soa.c:1158-1342 | in each buffer both the reported end and the true footer come from the last redirection crossed |
| SoaPipeline.SumOfIncremented | microbench/manual_soa_examples/MonoTree.soa.c:1842-2050 | the same closed form as the array-of-structs pipeline |
| WriteBarrier.FollowIndirections | gibbon-rts/rts-c/gibbon_rts.h:1145-1163 | the loop ends, at the first value that is not an indirection, with that value's footer |
| WriteBarrier.StoredWordPoints | gibbon-rts/rts-c/gibbon_rts.h:1166-1173 | the stored word names the collapsed pointee, and its footer if that is within 16 bits |
| WriteBarrier.IndirectionBarrier | gibbon-rts/rts-c/gibbon_rts.h:1129-1228 | nine bytes change; the remembered set and the old-to-old calls grow by the entries the ages of `from` and of the collapsed pointee demand |
| WriteBarrier.CollapsedMeans | gibbon-rts/rts-c/gibbon_rts.h:1145-1163 | collapsing keeps the value and ends at a byte that is no indirection tag |
| WriteBarrier.BarrierMeans | gibbon-rts/rts-c/gibbon_rts.h:1129-1228 | the new cell decodes to what `to` decoded to before |
| WriteBarrier.RunKeeps | gibbon-rts/rts-c/gibbon_rts.h:1129-1228 | over every run of barrier calls and unrelated writes: old values keep their decodings, and at the end no barrier-written indirection points at an indirection and each old-to-young one is remembered |
| Buckets.HashToBkt | deps/uthash/uthash.h:320-323 | masking selects the remainder modulo the number of buckets |
| Buckets.Push | deps/uthash/uthash.h:736-747 | relinking a new chain head keeps every chain, count and placement right |
| Buckets.Remove | deps/uthash/uthash.h:750-760 | relinking around an item keeps every chain, count and placement right |
| BucketExpansion.Halves | deps/uthash/uthash.h:807-828 | an item of bucket i of b goes to bucket i or i + b of 2b |
| BucketExpansion.MoveStep | deps/uthash/uthash.h:810-826 | moving one item keeps the whole state of the move: new chains, counts, multipliers, excess, untouched rest |
| BucketExpansion.Redistribute | deps/uthash/uthash.h:806-828 | every new chain is the reversed old chain filtered by its hash bit, counts and multipliers follow, nonideal_items is the total excess over the ideal length |
| LoadBound.ExpansionConserves | deps/uthash/uthash.h:806-828 | expansion neither loses nor duplicates an item |
| LoadBound.ExpansionKeepsItems | deps/uthash/uthash.h:806-828 | an item is in the bucket its hash selects before expansion if and only if it is after |
| LoadBound.LoadBounded | deps/uthash/uthash.h:1010-1022 | while every bucket is within its threshold there are less than 20 items per bucket |
| LoadBound.MultTimesIdeal | deps/uthash/uthash.h:815-819 | a bucket's multiplier is how often the ideal length fits its count, 0 up to one ideal length |
| LoadBound.ExpandedLoad | deps/uthash/uthash.h:772-790 | right after an expansion with ideal length at most 10 all thresholds hold and the multipliers add up to at most twice the buckets |
| UtHashTable.IdealIsCeiling | deps/uthash/uthash.h:801-803 | shift and mask compute the ceiling of items per new bucket |
| UtHashTable.CeilDivBounds | deps/uthash/uthash.h:801-803 | the ceiling suffices, is minimal, and is not 0 for a nonempty table (it is a divisor) |
| UtHashTable.AdaptiveLoad | deps/uthash/uthash.h:736-747 | a consistent table that may still expand holds less than 20 items per bucket |
| UtHashTable.InhibitedIff | deps/uthash/uthash.h:829-834 | for a table made by the first add, expansion is inhibited if and only if the last two expansions were ineffective |
| UtHashTable.UtHash.Find | deps/uthash/uthash.h:119-129 | the element returned has the key and hash value; NULL only if no element of the table has |
| UtHashTable.UtHash.ExpandBuckets | deps/uthash/uthash.h:791-837 | consistency and load after expansion, the exact new chains, ideal length, multipliers and excess, recorded as one more expansion; ineffective if more than half of the items exceed the ideal length, inhibiting further ones the second time in a row |
| UtHashTable.UtHash.AddToBkt | deps/uthash/uthash.h:736-747 | the item is in front of its chain, consistency and load hold; the table doubles if and only if the item's bucket reaches its threshold and expansion is not inhibited, and is otherwise as before |
| UtHashTable.UtHash.Add | deps/uthash/uthash.h:284-305 | full consistency; the element is last in application order. The first one gets a table of 32 buckets without multipliers, not inhibited; otherwise the table doubles exactly as for HASH_ADD_TO_BKT |
| UtHashTable.UtHash.DelInBkt | deps/uthash/uthash.h:750-760 | the one chain loses the one item, consistency and load stay, and so does all an expansion sets |
| UtHashTable.UtHash.Unlink | deps/uthash/uthash.h:347-366 | the application order loses the one element, at either end or in the middle |
| UtHashTable.UtHash.Delete | deps/uthash/uthash.h:337-370 | full consistency, the last delete included; the number of buckets, the multipliers and the record of expansions stay |
| UtHashTable.UtHash.Replace | deps/uthash/uthash.h:201-209 | the element found under the key, if any, is handed back and gone; the new one is last; one expansion at most, and a new table exactly if no other element is left |
| UtHashMap.ContentsUnique | gibbon-rts/rts-c/gibbon_rts.c:360-370 | with distinct keys the map is determined by membership, not by order |
| UtHashMap.Lookup | deps/uthash/uthash.h:119-129 | with distinct keys, finding is looking up in the map |
| UtHashMap.Insert | deps/uthash/uthash.h:284-305 | adding under a new key extends the map and the order |
| UtHashMap.Remove | deps/uthash/uthash.h:337-370 | deleting removes the element's key from the map |
| UtHashMap.Put | deps/uthash/uthash.h:201-209 | replacing updates the map and returns the entry it had |
| UtHashMap.InsertSet | gibbon-rts/rts-c/gibbon_rts.c:360-370 | the symbol set becomes the union with the symbol |
| UtHashMap.ContainsSet | gibbon-rts/rts-c/gibbon_rts.c:372-377 | true if and only if the symbol is in the set |
| UtHashRuns.Perform | deps/uthash/uthash.h:201-209 | every operation, sorting included, is one step of the abstract dictionary; only adding expands the table, once at most |
| UtHashRuns.Run | deps/uthash/uthash.h:400-450 | after every legal run the table is consistent and equals the dictionary; it has 32 * 2^n buckets after n expansions, is inhibited if and only if the last two were ineffective, and holds less than 20 items per bucket otherwise |
| UtHashRuns.TenAlike | deps/uthash/uthash.h:736-747 | of ten elements with one hash value the first nine leave 32 buckets, the tenth makes them 64 |
| StableSort.MergeStable | deps/uthash/uthash.h:872-914 | merging keeps, for every key, the elements equal to it in order |
| StableSort.PassSorts | deps/uthash/uthash.h:858-917 | one pass turns sorted runs of length w into sorted runs of length 2w |
| StableSort.PassStable | deps/uthash/uthash.h:858-917 | one pass reorders no equal elements |
| StableSort.SortCorrect | deps/uthash/uthash.h:844-929 | for every total preorder the result is sorted, a permutation, and stable |
| StableSort.StableSortUnique | deps/uthash/uthash.h:844-929 | there is only one sorted stable rearrangement |
| UtHashSort.Emit | deps/uthash/uthash.h:901-913 | hanging an element behind the emitted ones keeps both link directions, and the elements still waiting keep their successors |
| UtHashSort.MergeRuns | deps/uthash/uthash.h:872-914 | the in-place loop appends exactly the stable merge of the two runs |
| UtHashSort.CountRun | deps/uthash/uthash.h:864-871 | the counting loop steps over min(insize, rest) elements |
| UtHashSort.SortPass | deps/uthash/uthash.h:853-920 | one relinking pass leaves a linked list that is the pass on sequences; at most one merge if and only if the list fits two runs |
| UtHashSort.HashSrt | deps/uthash/uthash.h:844-929 | the loop ends before the 32-bit run length can wrap; head, tail and both link directions hold the sorted list |
| UtHashSort.Sort | deps/uthash/uthash.h:844-929 | the table stays consistent, its order becomes the stable sort, buckets and chains are untouched |
| FooTrees.MadeAt | microbench/parallel/sumfoo_1.c:407-525 | mkFoo n: a node's place decides all; reached by children whose numbers add up to n - m it is a C node with m if m > 1, a B node if m = 1, a leaf with 10 otherwise |
| FooTrees.SumOfValues | microbench/parallel/sumfoo_1.c:527-595 | the sum is the sum of all values modulo 2^64 |
| FooTrees.PointerSums | microbench/parallel/sumfoo_pointer.c:149-184 | both pointer-tree sums agree with the specification whatever the height threshold |
| PackedFoo.DecodeUnique | microbench/parallel/sumfoo_1.c:335-402 | memory determines the packed value, random-access slots included |
| PackedFoo.FrameAt | microbench/parallel/sumfoo_1.c:335-402 | a value and its slots survive writes that keep off their addresses |
| PackedFoo.ReadUnique | microbench/parallel/sumfoo_1.c:527-595 | memory determines what the programs read at a cursor |
| PackedFoo.ReadStopExact | microbench/parallel/sumfoo_1.c:572-589 | whatever the programs read at a value, the cursor they return is not its end if it ends in an indirection; if they find every child in place, what they read is the value, and the cursor is its end in all other cases |
| PackedFoo.StrayRead | microbench/parallel/sumfoo_1.c:572-589 | a node with an indirection to a leaf and a leaf: what lies behind the indirection's target is read for the second child, and the cursor returned is behind that |
| PackedFoo.InPlaceIff | microbench/parallel/sumfoo_1.c:572-589 | the programs look for every child where it lies if and only if no child followed by another, below a node that is not big, ends in an indirection |
| PackedFoo.FollowableReads | microbench/parallel/sumfoo_1.c:527-595 | such a value is read as what it is |
| PackedFoo.DirectFollowable | microbench/parallel/sumfoo_1.c:572-589 | a value without indirections is one |
| PackedFoo.SmallIsSeq | microbench/parallel/sumfoo_1.c:404-405 | a value of at most 8000 bytes contains no big node |
| PackedFoo.ThresholdClosed | microbench/parallel/sumfoo_1.c:512-523 | big nodes are upward closed: none below a C_tmp node |
| PackedFoo.BigExactly | microbench/parallel/sumfoo_1.c:512-520 | big are exactly the nodes whose children take 8000 bytes or more |
| PackedFoo.SlotCount | microbench/parallel/sumfoo_1.c:512-523 | one slot per node over the threshold |
| PackedFoo.SlotsApart | microbench/parallel/sumfoo_1.c:512-520 | the random-access slots are pairwise disjoint |
| FooWriters.CWritten | microbench/parallel/sumfoo_1.c:476-510 | a three-child node written through growth decodes, its footers and redirections name the same chunks, and its header is apart from its children |
| FooWriters.BigWritten | microbench/parallel/sumfoo_1.c:512-520 | overwriting the header and filling the slot turns a decodable C_tmp node into a decodable C_big node whose slot names children 2 and 3, and leaves every footer alone |
| FooWriters.JumpWritten | microbench/parallel/sumfoo_1.c:413-423 | a value written after growing, with less than 31 bytes left, is a value at the cursor before, its chunk the first of the chain |
| FooWriters.ChainedThen | microbench/parallel/sumfoo_1.c:98-129 | if the redirections of one value name the chunks whose footers the next-links meet, in order, and so do those of the value behind it, then so do both together: the later writer leaves all but the link of its own footer alone |
| FooWriters.LinksAcyclic | microbench/parallel/sumfoo_1.c:98-129 | following the next-links from a writer's footer meets each footer once and stops at the one it goes on with |
| FooWriters.LinkSizes | microbench/parallel/sumfoo_1.c:98-105 | along the links from a chunk of at most 10^9 bytes the nth chunk has min(first * 2^n, 10^9) bytes |
| FooWriters.SizesGrow | microbench/parallel/sumfoo_1.c:98-105 | the sizes never shrink and never exceed 10^9 |
| FooWriters.UngrownIff | microbench/parallel/sumfoo_1.c:407-423 | a tree is written without a redirection, in the bytes mkFoo reports as its size, if and only if there is room for them and 22 bytes more |
| SumFoo.AllocChunk | microbench/parallel/sumfoo_1.c:98-129 | a fresh chunk of min(2 * size, 10^9) bytes, numbered next, linked both ways, sharing counter and outset |
| SumFoo.MkFoo | microbench/parallel/sumfoo_1.c:407-525 | for every n the bytes decode to the tree, big nodes are exactly those over the threshold, the reported size is the size of the nodes, slots are consecutive from the random-access cursor, redirections lie exactly where less than 31 bytes were left, and name exactly the new chunks, in the order of their footers' links |
| SumFoo.PromoteIf | microbench/parallel/sumfoo_1.c:512-520 | the node is big if and only if the threshold is passed, and decodable either way |
| SumFoo.SwitchTag | microbench/parallel/sumfoo_1.c:572-589 | behind any number of redirections and indirections, the tag and fields of the node they lead to, with the same tree and the same cursor behind it |
| SumFoo.SumFooSeq | microbench/parallel/sumfoo_1.c:527-595 | for whatever decodes the way it reads: sum and cursor if no big node occurs, exit if and only if one does |
| SumFoo.SumFoo | microbench/parallel/sumfoo_1.c:597-676 | for whatever decodes the way it reads: jumping through the slots gives the same sum and the cursor behind child 3; it exits if and only if a big node lies below a C_tmp node |
| SumFoo.SumOfMade | microbench/parallel/sumfoo_1.c:678-741 | on every tree mkFoo builds, the packed sum is the pointer tree's sum and ends where mkFoo stopped |
| RegionCounts.Regions.AllocRegion | microbench/parallel/sumfoo_1.c:69-91 | conservation with a new region nobody names |
| RegionCounts.Regions.BumpRefCount | microbench/parallel/sumfoo_1.c:149-188 | conservation: the count and the outset entry grow together |
| RegionCounts.TakenBack | microbench/parallel/sumfoo_1.c:209-217 | taking back an entry keeps counts equal to entries, one entry less; the region it names is not freed, and is another one if the region itself has count 0 |
| RegionCounts.Regions.FreeRegion | microbench/parallel/sumfoo_1.c:190-259 | on any region in any state the cascade ends, even on cyclic outsets, and goes wrong only at a freed cell or footer of a region it has reached; as long as it does not, every count stays equal to the live entries naming the region, nothing is freed twice, while still named, or unreachable, and the region itself is freed if and only if its count is 0. It does not if every region being walked is named by none, or by one that stays |
| RegionCounts.Regions.DropCell | microbench/parallel/sumfoo_1.c:209-220 | one cell of an outset: the region named loses a pointer and is freed with its last one; no freed memory is touched under the same condition, which stays |
| RegionCounts.Regions.FreeRoot | microbench/parallel/sumfoo_1.c:190-259 | a call from outside touches no freed memory if and only if the count is 0, the outset is empty, or a region points to this one that the call does not free; then exactly those regions are freed whose pointers all come from this one and from freed ones, and all pointers of these are taken back; no pointer to freed cells is left if and only if the count is 0 or the outset is empty |
| RegionCounts.Regions.FreeTwice | microbench/parallel/sumfoo_1.c:196-222 | a region with a count and an outset: the first call goes well if and only if somebody else holds the region, and then the second touches freed memory |
| RegionCounts.UnreachedHeld | microbench/parallel/sumfoo_1.c:196-222 | a region with a count that no chain of pointers from itself leads back to is held, so a call on it goes well |
| RegionCounts.Regions.FreeSelfNamed | microbench/parallel/sumfoo_1.c:196-222 | a region named by itself alone: the first call does |
| RegionCounts.FreeCycle | microbench/parallel/sumfoo_1.c:149-259 | two regions made to point at each other: a call on the first touches freed memory |
| RegionCounts.FreeMiddle | microbench/parallel/sumfoo_1.c:149-259 | a region between another and its pointee: the first call goes well, the second touches freed memory |
| RegionCounts.FreeLoop | microbench/parallel/sumfoo_1.c:149-259 | a region made to point at itself: the call does |
| OffsetTable.Skips | microbench/factored_out/foo.c:147-179 | from any chunk with data the cursor reached is n data bytes further on, on a data byte if it moves |
| OffsetTable.PlaceUnique | microbench/factored_out/foo.c:147-179 | a logical position belongs to one data byte of the chain |
| OffsetTable.JumpIsWalk | microbench/factored_out/foo.c:146-179 | jumping over chunks stops at the same byte as stepping byte by byte |
| Rightmost.FindRightmost | microbench/factored_out/foo.c:294-354 | through a correct table, across chunks, the first of which may be empty: the rightmost leaf of every harmless tree, and the leaf in front of the first node off the track where the offset read there is 0 |
| Rightmost.OnTrackIff | microbench/factored_out/foo.c:303-332 | the table cursor held at every inner node of the right spine is that node's own table if and only if the tree is harmless |
| Rightmost.RightmostIsLast | microbench/factored_out/foo.c:294-354 | the rightmost leaf is the last one of the tree |
| Rightmost.EntriesLead | microbench/factored_out/foo.c:248-288 | every pair of offsets leads from behind it to the child's data and to its part of the table |
| Rightmost.BuiltAt | microbench/factored_out/foo.c:209-291 | mkFoo n: a node's place decides its kind |
| Rightmost.MkHarmless | microbench/factored_out/foo.c:209-291 | every tree of the shape mkFoo builds is harmless, whatever its leaves |
| Rightmost.MisreadOffset | microbench/factored_out/foo.c:301-310 | one byte off its table rightmost reads, at every inner node, an offset other than the one stored |
| Rightmost.QuirkReturns | microbench/factored_out/foo.c:301-334 | for every f behind two such leaves the result is the second leaf's value, wrong if and only if f's rightmost leaf has another |
| Rightmost.MkFoo | microbench/factored_out/foo.c:194-291 | for every n the table it writes is the offset table of the tree whose leaves it draws, in exactly the space counted for n, with the sizes returned; rightmost can read it, and will find that tree's rightmost leaf |

## Left out

- The writers (`Writable`) stand in nursery chunks of 29 to 32776 bytes. From smaller ones the next chunk may lack room for a redirection; from larger ones its footer offset is lost (`Growth.PromotedOffset`). The source allocates first chunks of at least 128 bytes.
- Runtime.Runtime.GrowRegion: not from a nursery footer that records less than 9 bytes: the new footer would lie before the block allocated for it (`Growth.PromotedFits`).
- Runtime.Runtime.Malloc: can fail at any time; addresses stay below 2^48, as the tagging assumes, and failure ends the program also in `sumfoo_1.c`, which does not check for NULL.
- SumFoo.AllocChunk: keeps `seq_no` in an 8-byte word, the 4 bytes of padding included.
- SumFoo.SumFooSeq: says nothing about a value that is not read as what it is: the programs then add up what lies behind an indirection's target. The same holds for `SumFoo.SumFoo`.
- SoaCopy.CopyTree: stops before a write over a footer (`overrun`); what the program does after it is not modelled.
- RegionCounts.Regions.FreeRegion: stops where freed memory would be touched. It takes outset references to be first-chunk footers, so `trav_to_first_chunk` (whose recursive case returns nothing) is not entered; the chunks of one region and their freeing are not modelled, only that each region is freed once.
- Rightmost.FindRightmost: assumes the data as `mkFoo` of `foo.c` writes them (chunk chain, leaves not split), and that `mkFoo` writes inner tags without a bounds check. Off its track (`Unknown`) nothing is said where the offset read late is not 0, as the byte jumped to need not start a node, nor where it is 0 but the first child is an inner node, as the table cursor is then computed from bytes of other entries. The byte behind the table has to be there where it is read (`Rightmost.ReadsPast`). Indirections (tag 100) are not part of its inputs.
- Rightmost.MkFoo: writes the table only; its chunks and its data are not modelled.
- SumFoo.MkFoo: the sizes it reports are unbounded; they are bounded by the allocated memory in the program.
- WriteBarrier.RunKeeps: treats everything between barrier calls, collection included, as writes that keep off tracked values.
- The simple and the non-generational variants of the barrier, and what `gib_add_old_to_old_indirection` does: only its arguments are recorded.
- The collector, zero-count tables, outset clones and shadow stacks are not part of this model; `gib_init_footer_at` is its contract (footer in the last 24 bytes, new region information).
- `gib_grow_region` is the eager-promotion build. Growth that stays inside the nursery is modelled by its sizes only; `gib_alloc_region_in_nursery_fast` is not part of this model.
- `_copy_without_ptrs_Tree` over three buffers, `_print_Tree`, `main` functions, timing, printing.
- `list.aos.c`, `list.soa.c` and `reduceList.aos.c`: the same argument as for trees, with one child.
- uthash counters other than the sort's run length are unbounded naturals; key comparison is equality of keys, hash functions are arbitrary.
- `HASH_ADD_KEYPTR_BYHASHVALUE_INORDER`, `HASH_SELECT`, `HASH_BLOOM`, `HASH_CLEAR` and tables with duplicate keys (`Find` and consistency cover them, the map does not).
- `cilk_spawn`: the spawned calls only read, so they are ordinary calls.
