# RadixGraph, verified

A Dafny model of RadixGraph, an in-memory dynamic graph, and proofs of what it promises. The model follows the program's
three layers and covers the algorithms at their core.

**The per-vertex edge log.** Each vertex owns an array: a compacted snapshot followed by an append-only log in which weight
zero deletes. `EdgeRecords` says what a log means, `Compaction` proves the backward scan and the unchecked copy against that
meaning, `Bitmaps`, `EdgeArrays` and `VertexLog` do the same work on bytes, arrays and classes and bound its cost.
`InsertProtocol` runs any number of inserting threads one shared access at a time and `IssueOrder` says what their callers
can rely on; `SoloInsert` connects the protocol to the sequential insertion. `VersionChain` runs readers and expanders over
the chain of versions, and `ChainReads` says which version a reader gets; `TimeTravel` adds the global counter and reads at
past timestamps, and `BegunReads` follows a read from its begin to its end.

**SORT, the variable-width radix tree.** `MixedRadix` is the digit arithmetic, `Trie` the tree as a value, `RadixTree` the
class with its child arrays, `ConcurrentTree` and `TreeProgress` the insertion protocol with per-slot lock bits,
`FanoutOptimizer` the dynamic program that picks the widths, and `ExpectedSize` what its costs mean for the tree.

**Graph kernels.** `DeltaStepping` (over `ShortestPaths`), `DirectionOptimizingBfs`, `ShiloachVishkin` and `TriangleCount`
take the adjacency the store returns and are proved against their mathematical definitions, termination included.

`dafny verify dfyconfig.toml` checks the project.

## What holds only under a condition

- Compaction copies without a duplicate check when two counters agree. On top of a snapshot the result is right if and only
  if the log is not insertions alone or every one of them was legal where it stood: `InsertEdge` is issued for absent edges
  and with a non-zero weight. `UpdateEdge` and `DeleteEdge` may name absent edges; only the cost bound needs them to name
  live ones.
- Concurrent updates of one destination race for slots. If no two of them are in flight together, the order in which they
  were begun decides.
- A read at timestamp t shows exactly the updates up to t if and only if the version covering t still has its buffer or
  nothing was stamped between the end of the version the read falls back to and t. A version keeps its buffer exactly while
  it is current or read, so the read of a past timestamp nobody has pinned can succeed with older data.
- `Transform` with a vertex set leaves the pair of the old root and code 0 among its entries, so afterwards key 0 finds the
  old root. Every other lookup is preserved, and with an empty vertex set every lookup is.
- Under concurrent insertion the idx values are exactly 0..cnt-1, but the counter and the table slot are taken in two steps,
  so `vertex_table[v.idx]` need not be `v`. It is, at rest and in every run, if and only if at most one thread inserts or
  all ids share one key.
- The triangle count includes triples with equal members, which exist exactly when some vertex is its own neighbour.
- The optimizer's predecessor table is read only where it is defined as long as the number of levels plus 2^bits stays below
  the start value 2^62 of the cost table.

## Model

| member | source | states |
|---|---|---|
| `Compaction.CompactPreservesMeaning` | src/radixgraph.cpp:204-249 | Compacting any array reached by a well-formed history gives a snapshot: distinct live destinations whose map is the latest-wins map of snapshot and log. |
| `Compaction.CompactExactLog` | src/radixgraph.cpp:204-239 | For every snapshot and any log whatever: compacting them yields a snapshot of the latest-wins map if and only if the log holds something other than an insertion, so that the scan runs, or every insertion named an absent edge with a non-zero weight where it stood. |
| `Compaction.DuplicateInsertSurvivesCompaction` | src/radixgraph.cpp:206-212 | A concrete array on which the unchecked copy keeps a repeated destination: why insertions must name absent edges. |
| `Compaction.CounterGap` | src/radixgraph.cpp:206-207 | Written slots minus the degree counter is the number of updates plus twice the number of deletes in the log; it is zero exactly for insertion-only logs. |
| `Compaction.FastPathIsSafe` | src/radixgraph.cpp:206-212 | When the counters agree on a well-formed history the whole array is already a snapshot of its own meaning. |
| `Compaction.NewestFirstCorrect` | src/radixgraph.cpp:170-184 | The backward scan with a bitmap emits each live destination once, with its newest weight, and nothing for deleted ones. |
| `EdgeArrays.LogCompaction` | src/radixgraph.cpp:204-249 | On real arrays: contents, capacity after any number of regrowths, counters, stamp and timestamp buffer of the new array, and a clean bitmap afterwards; requires only that the unchecked copy fits. |
| `EdgeArrays.GetNeighbours` | src/radixgraph.cpp:139-189 | One version read at a timestamp returns exactly the specification function of a prefix of its entries, the shortest one that holds every log record stamped at most that timestamp, whatever the order of the stamps; the bitmap is all-clear before and after. |
| `EdgeArrays.ReadIsReplay` | src/radixgraph.cpp:139-189 | A read into an empty vector lists the latest-wins map of the visible prefix, each destination once, on the scan branch and on the snapshot-only branch. |
| `EdgeArrays.FindVisible` | src/radixgraph.cpp:143-160 | The backward search over the timestamp buffer: no log record from the cut on is stamped at most the timestamp, and the one just before the cut is, unless only the snapshot is left; that determines the cut for every sequence of stamps. |
| `EdgeArrays.ScanInto` | src/radixgraph.cpp:213-239 | The slow path with its regrowth loop writes the specified entries in order and leaves the bitmap clean. |
| `Bitmaps.SegmentedBitmap.SetBit` | src/utils.h:122-135 | A table of segments of bytes: sets one bit of one byte of one segment, growing the table by as many all-clear segments as the position needs. As a set of numbers, exactly that position is added. |
| `Bitmaps.SegmentedBitmap.ClearBit` | src/utils.h:137-140 | Takes exactly that position out of the set; beyond the allocated segments nothing happens. |
| `Bitmaps.HoldsAssigned` | src/utils.h:70-85 | Or-ing or masking one byte of one segment changes membership of one position and of no other. |
| `Bitmaps.SegmentedBitmap.GetBit` | src/utils.h:142-145 | Reading a bit by segment, byte and place is membership in the represented set, also beyond the segments allocated so far. |
| `VertexLog.InsertRefines` | src/radixgraph.cpp:20-59 | One update, through any number of expansions, is one update of the map from destination to weight. |
| `VertexLog.RunRefines` | src/radixgraph.cpp:20-59 | A whole stream of updates leaves exactly the latest-wins map of its records, whatever was compacted on the way. |
| `VertexLog.AmortizedScan` | src/radixgraph.cpp:30-33 | For any expansion rate r above one, compactions triggered by k strict updates scan at most r/(r-1) times k slots in all. |
| `VertexLog.AtMostTwoSlotsPerUpdate` | src/radixgraph.cpp:30-33 | With rate two and initial capacity eight: at most 2k slots. |
| `VertexLog.Vertex.Insert` | src/radixgraph.cpp:20-59 | The class method moves the arrays exactly as the abstract insertion says, changes the represented map by one record, and moves the stamps, the snapshot's stamp and the global counter as the abstract insertion says. |
| `VertexLog.Vertex.Expand` | src/radixgraph.cpp:24-47 | Expansion replaces the array, frees the obsolete buffers and leaves the represented map unchanged; the array it allocates always holds the unchecked copy, has no stamps yet, and its snapshot is stamped with the counter value drawn. |
| `VertexLog.Vertex.constructor` | src/sort.cpp:162-180 | A new vertex has an empty array of capacity eight, with a timestamp buffer exactly in mixed mode. |
| `VertexLog.OneStampPerUpdate` | src/radixgraph.cpp:52-54 | In mixed mode every update draws one stamp for its record: behind the stamps there are if a slot is free, otherwise as the only one behind a snapshot stamped just before. Stamps stay ascending, not below the snapshot's and below the counter. |
| `VertexLog.ExpandedSpace` | src/radixgraph.cpp:30-33 | Expansion allocates at most the expansion rate times the degree and ten slots, or at most seven slots more than it compacted. |
| `VertexLog.Vertex.InsertEdge` | src/radixgraph.cpp:61-66 | Adds one edge to the map; the edge must be absent and the weight non-zero. |
| `VertexLog.Vertex.UpdateEdge` | src/radixgraph.cpp:68-82 | Sets one weight, or removes the edge if the weight is zero, whether or not the edge was live. |
| `VertexLog.Vertex.DeleteEdge` | src/radixgraph.cpp:84-98 | Removes one edge, whether or not it was live. |
| `VertexLog.Vertex.CreateSnapshot` | src/radixgraph.cpp:287-313 | The exclusive compaction keeps the map, leaves a log-free snapshot with a stamp drawn for it, sorted on request, in an array of exactly the capacity the degree counter gives, dense or not, which still holds the unchecked copy. |
| `VertexLog.Vertex.Neighbours` | src/radixgraph.cpp:139-189 | Reading the current version at any timestamp not below its snapshot's lists, each destination once, exactly what the snapshot and the updates stamped at most that timestamp leave; without a timestamp buffer, the live map. |
| `InsertProtocol.NoRecordLost` | src/radixgraph.cpp:20-59 | In every run of any number of threads, whenever no insert is in flight: the completed updates are exactly the records logged version by version, and if those are well formed in slot order the current array replays to their latest-wins map. |
| `IssueOrder.IssueOrderDecides` | src/radixgraph.cpp:20-59 | In every run in which no two updates of one destination are in flight together, at rest: each destination's updates sit in the slots in the order in which they were begun, across any number of expansions, and if the updates were well formed in that order the current array replays to their latest-wins map. |
| `IssueOrder.SameOrders` | src/radixgraph.cpp:61-98 | Whether a history is well formed and what it leaves depends on the order within each destination only. |
| `InsertProtocol.SlotsNeverOverwritten` | src/radixgraph.cpp:22-57 | Over every interleaving a completed insert keeps its slot: the record and its place never change again. |
| `InsertProtocol.ReturnSettles` | src/radixgraph.cpp:52-58 | When an insert returns, its record sits in the slot it reserved. |
| `InsertProtocol.WrittenPlusOwing` | src/radixgraph.cpp:22-29 | In every reachable state and for every version, written slots plus threads owing a write equal min(size, cap). |
| `InsertProtocol.WaitHasWriter` | src/radixgraph.cpp:24-29 | While the lock holder waits, some other thread owes a write and its next step is enabled without the lock: no deadlock. |
| `InsertProtocol.SomeoneMoves` | src/radixgraph.cpp:20-59 | In every reachable state with an insert in flight some thread has a step that changes the state. |
| `SoloInsert.SoloIsSequential` | src/radixgraph.cpp:20-59 | From every state at rest that concurrent inserts may have left, a thread running alone can complete its insert, and the current array is then exactly the one the sequential insertion makes, through any number of expansions; with a free slot it takes six steps, without lock or retry. |
| `InsertProtocol.WaitEndsSoon` | src/radixgraph.cpp:27-29 | No step of another thread adds to what the wait waits for, and every step of an owing thread takes something away. |
| `InsertProtocol.CompactionInputsComplete` | src/radixgraph.cpp:27-33 | When the wait ends, buffer and degree counter are the complete snapshot and log before compaction reads them. |
| `InsertProtocol.CompactionInputsFrozen` | src/radixgraph.cpp:30-33 | No step of another thread changes them while compaction runs. |
| `InsertProtocol.RoomForWaiting` | src/radixgraph.cpp:30-32 | The array an expansion builds has a slot for every thread that has overflowed the old one so far and eight more, as long as the live edges do not outnumber the degree counter, and is not larger than rate, degree and those threads ask for. |
| `InsertProtocol.StrictRoom` | src/radixgraph.cpp:30-33 | If the updates and deletes since the snapshot named live edges, the compacted edges are as many as the degree counter says. |
| `InsertProtocol.RunInv` | src/radixgraph.cpp:20-59 | The inductive invariant holds in every state of every interleaving. |
| `VersionChain.PinnedVersionsStayAlive` | src/radixgraph.cpp:120-201 | In every interleaving of readers and expanders: a version with a reader is alive with its buffer, whatever a lock holder dereferences next is alive, and a version under deletion is obsolete and unread. |
| `ChainReads.ReadHonoursTime` | src/radixgraph.cpp:125-138 | In every run, a read that set out at a timestamp pins a version not newer than it, and when it takes the pin every newer version is dead, without buffer or stamped later. |
| `ChainReads.FailedWalkFoundNone` | src/radixgraph.cpp:127-134 | A walk that gives up met no live version with a buffer and a stamp not above its timestamp. |
| `ChainReads.ExpansionStamps` | src/radixgraph.cpp:34-36 | The version an expansion builds and publishes carries the stamp the expansion was started with. |
| `ChainReads.TwoVersionsWithoutReaders` | src/radixgraph.cpp:34-47 | In runs without readers, whenever the lock is free only the current version and the one it replaced are alive. |
| `VersionChain.ChainConsistent` | src/utils.h:176-200 | Whenever the lock is free the live versions form one doubly linked list: the current array is reached from each of them along next and each of them from the current array along prev; read counts are the numbers of readers, and an obsolete version has a buffer exactly while it is read. |
| `VersionChain.DeletedOnce` | src/radixgraph.cpp:190-199 | A deleted version never becomes alive, current, pinned or a deletion target again. |
| `VersionChain.DerefsSafe` | src/radixgraph.cpp:34-47 | From every state satisfying the invariant, the next pointer dereference of the lock holder hits a live object. |
| `VersionChain.UnlinkPrevStep` | src/utils.h:190-199 | The destructor's second pointer write leaves a consistent chain that bypasses the deleted version. |
| `VersionChain.RunInv` | src/radixgraph.cpp:120-201 | Chain, counts, buffers and lock stay consistent in every run. |
| `TimeTravel.ReadIsExact` | src/radixgraph.cpp:125-160 | In every reachable store, reading at a timestamp already drawn whose covering version is retained returns exactly the latest-wins map of the updates stamped at most that timestamp. |
| `TimeTravel.ReadIsExactIff` | src/radixgraph.cpp:125-160 | For every reachable store and every timestamp already drawn: the read shows exactly the updates stamped at most that timestamp if and only if the covering version still has its buffer or nothing was stamped between the end of the version it falls back to and the timestamp; its map is right if and only if every destination updated in between ended with the entry that version already had. |
| `TimeTravel.HeldIffRead` | src/radixgraph.cpp:37-46 | A version has its edge buffer exactly while it is current or read. |
| `TimeTravel.ReadIsStable` | src/radixgraph.cpp:125-160 | Repeating such a read after any further updates, expansions and reads that leave the covering version its buffer returns the same sequence of edges. |
| `BegunReads.BegunReadIsStable` | src/radixgraph.cpp:135-138 | In every run, from the step in which a read at a timestamp already drawn begins until that read has ended, the version it ended at keeps its buffer, the walk for that timestamp still ends there, and the read gives the same sequence of edges. |
| `BegunReads.ReadersCount` | src/radixgraph.cpp:135-199 | The read count of a version is what it was, plus the reads begun on it since, less the reads ended. |
| `TimeTravel.ReadCharacterized` | src/radixgraph.cpp:125-160 | For every read: it fails exactly if no retained version is old enough, and otherwise shows the history up to the timestamp, cut off where the version it ended at stopped taking records. |
| `TimeTravel.StaleRead` | src/radixgraph.cpp:37-46 | A run in which a reader pins version 0, two expansions follow, and the second one frees the unread version 1 while version 0 stays: a read at a timestamp version 1 covered succeeds with the old weight. |
| `TimeTravel.VisibleIsUpTo` | src/radixgraph.cpp:143-160 | With ascending stamps the backward search selects exactly the records stamped at most the timestamp. |
| `MixedRadix.DigitsBijective` | src/sort.cpp:205-206 | For every width vector the digits of the levels are a bijection between ids below 2^total and digit sequences. |
| `MixedRadix.MaskAndShiftIsDigit` | src/sort.cpp:205-206 | For widths that fit a 64-bit word, the loops' expression, a bitwise and with a mask of ones and a right shift, is the digit. |
| `MixedRadix.PrefixStep` | src/sort.cpp:205-206 | One level down multiplies the prefix by the level's width and adds the digit, which fits the level. |
| `MixedRadix.PrefixIsDigits` | src/sort.cpp:205-206 | Two ids share a prefix at a level exactly if their digits above it agree. |
| `Trie.AtAfterPut` | src/sort.cpp:139-186 | Filling one empty slot changes what one prefix leads to and nothing else. |
| `Trie.LookupIsMap` | src/sort.cpp:188-229 | Following the digits of an id computes a map from keys to leaf slots. |
| `RadixTree.Sort.constructor` | src/sort.cpp:369-384 | For any width vector: a new tree is empty and keeps the non-zero widths in order, so it has a level exactly if some width is not zero. |
| `RadixTree.Sort.RetrieveVertex` | src/sort.cpp:188-229 | Returns the vertex of the id's key, inserting it first if asked and absent; the id list grows by that id or not at all. |
| `RadixTree.Sort.InsertVertex` | src/sort.cpp:139-186 | Creates exactly what is missing on the path of the id: a new vertex with the next index if the key is free, the existing one otherwise. |
| `RadixTree.Sort.GetInternalID` | src/radixgraph.cpp:251-258 | The index of the vertex with the id's key, or -1. |
| `RadixTree.Sort.GetExternalID` | src/radixgraph.cpp:260-266 | The id inserted at that index, or the largest 32-bit number out of range. |
| `RadixTree.RunFindsInserted` | src/sort.cpp:188-229 | After any run of insertions exactly the inserted keys are found, one vertex each, and later insertions never change what was found. |
| `RadixTree.IdsUndoEachOther` | src/radixgraph.cpp:251-266 | For ids below 2^total, internal and external ids are inverse to each other. |
| `RadixTree.Sort.NodePerPrefix` | src/sort.cpp:320-340 | At rest a node exists exactly for each distinct prefix of an inserted id, and for the root. |
| `RadixTree.Sort.Transform` | src/sort.cpp:244-318 | Another depth changes nothing; with an empty vertex set every lookup is as before; with exactly the stored ids, a lookup is as before if and only if its key is not 0, where the old root is found instead. |
| `RadixTree.Sort.Collect` | src/sort.cpp:253-266 | The level-by-level collection, which overwrites each width after reading its level, lists every leaf with its code in ascending order. |
| `RadixTree.Sort.Graft` | src/sort.cpp:295-316 | Rebuilding one entry adds its leaf unless the slot is taken. |
| `Trie.RebuiltFrontier` | src/sort.cpp:244-318 | Collecting a tree and rebuilding it with other widths of the same total keeps every leaf. |
| `Trie.SeedTakesKeyZero` | src/sort.cpp:249-250 | Rebuilding from given ids keeps every leaf except at key 0, which the seed pair occupies. |
| `RadixTree.Sort.Size` | src/sort.cpp:320-340 | The queue traversal terminates and returns, for a non-empty id list, the sum over levels of distinct prefixes times 2^width; for an empty tree with a root, the root's width. |
| `Trie.FrontierIsListing` | src/sort.cpp:253-262 | The breadth-first frontier of a level is everything on that level in ascending order of prefix, each once. |
| `ConcurrentTree.ChildFixedForGood` | src/sort.cpp:139-186 | Over every interleaving a child pointer that is not null never changes. |
| `ConcurrentTree.OneVertexPerKey` | src/sort.cpp:139-186 | Inserters of the same key get the same vertex whenever they finish, inserters of different keys different vertices. |
| `ConcurrentTree.KeyBelowTotal` | src/sort.cpp:142-143 | Ids below 2^total are their own keys, so the statements about keys are statements about ids. |
| `ConcurrentTree.AtRest` | src/sort.cpp:162-180 | With no insertion in flight: cnt is the number of distinct inserted keys, every key finds its vertex, which carries an inserted id with that key, the idx values are exactly 0..cnt-1, each once, and no lock bit is set. |
| `ConcurrentTree.NobodyStuck` | src/sort.cpp:145-155 | An active inserter always has a next step, and the holder of a lock bit is inside that slot and not waiting. |
| `TreeProgress.FinishesAlone` | src/sort.cpp:139-186 | In every reachable state, an insertion that runs on alone while no other thread is inside a slot ends, with the vertex its key leads to. |
| `ConcurrentTree.Drive` | src/sort.cpp:139-186 | Left alone, a thread inserting a new key reaches the point where it draws its index. |
| `ConcurrentTree.IndexIsPosition` | src/sort.cpp:172-174 | Run by run: if no two threads are between drawing an index and taking a table slot, vertex_table[v.idx] is v at rest. |
| `ConcurrentTree.InPlaceIffOneThreadOrOneKey` | src/sort.cpp:172-174 | For every set of threads and every width vector: vertex_table[v.idx] is v for every vertex in every state at rest of every run if and only if there is at most one thread or all ids share one key. |
| `ConcurrentTree.IndicesCanSwap` | src/sort.cpp:172-174 | From every state at rest two threads inserting two new keys can reach a state at rest in which two vertices have each other's index. |
| `ConcurrentTree.RunInv` | src/sort.cpp:139-186 | The inductive invariant over all interleavings. |
| `FanoutOptimizer.ComputeProb` | src/sort.cpp:18-25 | The loop computes the product that `Prob` denotes, zero when too few items are left. |
| `FanoutOptimizer.ProbIsShare` | src/sort.cpp:18-25 | prob is the share of ordered samples without replacement that avoid a block of the given size. |
| `FanoutOptimizer.LevelCostBounds` | src/sort.cpp:40-42 | The with-replacement estimate never exceeds the exact cost of a level, which lies between zero and its number of slots: pruning is sound. |
| `ExpectedSize.DrawsComplete` | src/sort.cpp:18-25 | The list of draws over which expectations are taken holds exactly the ordered draws of n numbers below u, with or without repetition. |
| `ExpectedSize.LevelCostIsExpected` | src/sort.cpp:42-42 | The exact cost of a level is its expected number of slots: summed over all draws of n distinct ids, the distinct prefixes times the level's width give the cost times the number of draws. |
| `ExpectedSize.EstimateIsExpected` | src/sort.cpp:40-40 | The estimate is the same mean over the draws with repetition. |
| `ExpectedSize.FullCostIsExpectedSize` | src/sort.cpp:36-50 | The cost of a width vector is the expected size of the tree: the sizes of the trees over all draws of n distinct ids below 2^total sum to the cost times the number of draws. |
| `ExpectedSize.OptimalIsSmallest` | src/sort.cpp:27-60 | A width vector of least cost needs the fewest slots in all, summed over all draws of n ids, among the width vectors of as many levels. |
| `FanoutOptimizer.TryCandidate` | src/sort.cpp:39-47 | One candidate with the skipping test leaves the table entry at the minimum over all candidates tried. |
| `FanoutOptimizer.BestIsLower` | src/sort.cpp:36-50 | No width vector costs less than the table says. |
| `FanoutOptimizer.PredecessorDefined` | src/sort.cpp:51-56 | Every predecessor entry the backtrack reads is defined and consistent with the table, as long as levels plus 2^bits stays below the start value 2^62. |
| `FanoutOptimizer.OptimalFanout` | src/sort.cpp:27-60 | Returns l widths summing to the number of bits whose cost is minimal among all such width vectors. |
| `FanoutOptimizer.PruneNeverCostsMore` | src/sort.cpp:62-69 | Dropping the zero widths keeps the total, leaves no zero and never costs more when there is at least one vertex. |
| `FanoutOptimizer.Prune` | src/sort.cpp:62-69 | The loop keeps exactly the non-zero widths in order. |
| `DeltaStepping.DeltaStep` | src/GAPBS/sssp.cc:52-111 | Terminates for every graph with non-negative real weights and every bin width; dist is infinity where no walk is shorter and the least walk length elsewhere. |
| `DeltaStepping.RelaxEdges` | src/GAPBS/sssp.h:19-42 | After relaxing a vertex none of its edges improves anything, every vertex with work left sits in the bin of its distance, and either a distance improved or nothing changed. |
| `DeltaStepping.Fuse` | src/GAPBS/sssp.cc:78-85 | Bucket fusion keeps the invariant for any bin size and terminates. |
| `DeltaStepping.NextIsLowest` | src/GAPBS/sssp.cc:86-92 | The vote finds the lowest bin with work: nothing is left below it, and no bin means nothing is left at all. |
| `DeltaStepping.RelaxOne` | src/GAPBS/sssp.h:28-40 | One improvement keeps the invariant, never lands below the current bin and uses up one of finitely many values. |
| `ShortestPaths.DistancesUnique` | src/GAPBS/sssp.cc:52-111 | The distance table is determined by the graph and the source alone. |
| `ShortestPaths.PotentialDrops` | src/GAPBS/sssp.h:33-34 | Every improvement lowers a potential bounded by the lengths of simple walks, so real weights terminate too. |
| `DirectionOptimizingBfs.DOBFS` | src/GAPBS/bfs.cc:122-161 | On every symmetric adjacency, for all positive parameters and all degree estimates: terminates, exactly the reachable vertices get a parent, each parent is a neighbour one level closer. |
| `DirectionOptimizingBfs.BUStep` | src/GAPBS/bfs.cc:31-56 | From a front that covers the last level and may hold stale bits, visits exactly the next level, counts it and marks it. |
| `DirectionOptimizingBfs.TDStep` | src/GAPBS/bfs.cc:58-89 | Visits exactly the next level, queues each of its vertices once, so the queue never exceeds vertex_num, and counts their degree estimates. |
| `DirectionOptimizingBfs.FrontDecides` | src/GAPBS/bfs.cc:45-53 | An unvisited vertex sees the front exactly if it is on the next level, and what it sees is on the last level: stale bits are harmless. |
| `DirectionOptimizingBfs.ClimbAll` | src/GAPBS/bfs.cc:146-151 | The do-while loop of bottom-up steps terminates with a front that marks exactly one later level: the first one narrower than the level before it and not wider than vertex_num / beta. |
| `DirectionOptimizingBfs.Turn` | src/GAPBS/bfs.cc:139-158 | One iteration goes bottom-up exactly if the scout count exceeds the unexplored edges over alpha, and moves level, unexplored edges and scout count accordingly; it visits something new or empties the queue. |
| `DirectionOptimizingBfs.QueueToBitmap` | src/GAPBS/bfs.cc:91-96 | Sets exactly the bits of the window, keeping the bits already set. |
| `DirectionOptimizingBfs.BitmapToQueue` | src/GAPBS/bfs.cc:98-111 | Queues exactly the marked vertices, none of which has been queued before. |
| `DirectionOptimizingBfs.SlidingQueue.SlideWindow` | src/GAPBS/sliding_queue.h:58-61 | The window becomes what was pushed since the last slide. |
| `ShiloachVishkin.Components` | src/GAPBS/cc_sv.cc:33-69 | Terminates with comp[v] the smallest vertex weakly connected to v, so labels agree exactly on weakly connected vertices. |
| `ShiloachVishkin.HookEdge` | src/GAPBS/cc_sv.cc:48-59 | One hook keeps comp[x] <= x and connected to x, and either makes the sum of labels smaller or leaves equal labels at both ends. |
| `ShiloachVishkin.LowIsMin` | src/GAPBS/cc_sv.cc:53-54 | The wrapping 32-bit expression computes the smaller of the two labels. |
| `ShiloachVishkin.JumpAll` | src/GAPBS/cc_sv.cc:62-66 | Pointer jumping terminates with every label its own label, and changes nothing if that held before. |
| `TriangleCount.OrderedCount` | src/GAPBS/tc.cc:35-79 | For strictly sorted lists the total is exactly the number of triples w <= v <= u with v and w neighbours of u and w a neighbour of v. |
| `TriangleCount.Merge` | src/GAPBS/tc.cc:66-75 | The monotone cursor with its early break counts exactly the common neighbours up to v. |
| `TriangleCount.StrictIffLoopFree` | src/GAPBS/tc.cc:35-79 | That number is the number of strictly ordered triples if and only if no vertex is its own neighbour. |
| `TriangleCount.CountsTriangles` | src/GAPBS/tc.cc:35-79 | On a symmetric graph without loops it is the number of triangles. |

## Left out

- Reading the clock and the edge buffer together: timestamps, reclamation and record contents are split between InsertProtocol (records and slots), VersionChain (lifetimes and links) and TimeTravel (stamps and contents), each atomic where another one is fine-grained.
- The pointer an insert loads before it takes the lock is not counted as a read in VersionChain, so the lifetime statements do not cover an insert still holding an obsolete array.
- Reads while inserts are in flight: the bounded retry on unwritten slots makes their result best effort, so reads are modelled on quiescent arrays or between atomic updates.
- Bitmaps.SegmentedBitmap.SetBit: a fresh segment is modelled all-clear; the program leaves its words to the default initialisation of atomics, which clears them from C++20 on.
- Integer widths of counters and timestamps: sizes, degrees and the global counter are unbounded here; the masks and shifts of the radix tree are related to its digits by MixedRadix.MaskAndShiftIsDigit, and the minimum of the component kernel wraps as it does in the program.
- Weak memory: shared words are sequentially consistent, one access a step.
- Floating point: edge weights are opaque reals with a zero test, distances and costs are exact reals.
- VertexLog.Vertex.SortEdges: std::sort is a library call; it is represented by its result, the ascending arrangement of the same entries.
- TriangleCount.OrderedCount: takes neighbour lists already sorted, as they are after CreateSnapshots or after the sort in the loop.
- RadixTree.Sort: deallocation of old nodes is not modelled; old nodes become unreachable.
- RadixTree.Sort.RetrieveVertex: requires at least one level; without one the program reads the width of a level that does not exist.
- RadixTree.Sort.Transform: the vertex set is required to be exactly the stored ids and the root to exist, because the program follows their paths without null checks.
- DeltaStepping.DeltaStep: the frontier buffer grows as needed; the program allocates it once with room for num_edges entries. No finite distance may reach the bin number reserved for "no bin".
- ShiloachVishkin.Components: neighbour lists hold ids, so the statement applies where internal offsets equal ids; an id without a vertex has no neighbours.
- DirectionOptimizingBfs: the thread-local QueueBuffer and the 64-bit packing of Bitmap; pushes go straight to the queue and a bitmap is an array of bits.
- Parallel execution of the kernels: they are modelled with one thread.
- Vertex deletion (del_time) and slot reuse, which is compiled out.
- InsertSimpleVertex and CheckExistence, copies of the main paths for benchmarks.
- The adaptive radix tree and the direct-indexed vertex array, the alternatives to SORT.
- PageRank and betweenness scores: numeric iteration without a crisp functional specification.
- Command lines, drivers, memory statistics and build files.
