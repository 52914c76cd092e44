# Stratum cache hierarchy, modelled in Dafny

This project models the engine of the Stratum / nano_cache_sim trace-driven
cache simulator. It covers:

- **MainMemory**, the terminal level, which answers every request with its
  name and a fixed latency.
- **Cache**, one set-associative level. It splits an address into a set
  index and a tag, and scans the ways of that set for a hit. A miss Loads the
  block from the next level, adds its own hit latency on the way back, and
  fills the block. The fill takes the lowest invalid way, or else the
  policy's victim; a dirty victim is first written back to the next level.
  Stores are write-back and write-allocate. Each level counts hits, misses
  and evictions.
- **The replacement policies**:
  - LRU, with per-set counters and stamps; the victim is the smallest stamp,
    lowest way first.
  - FIFO, a circular pointer per set.
  - Random, an arbitrary way in range.
- **The example program**. It loads a trace through L1 → L2 → L3 → memory
  and records each answer. It then aggregates the answers per level by
  walking the ordered list of level names, and reports the hits, misses and
  average latency of each level.
- **The trace driver loop**. It dispatches each trace operation to Load
  (`'L'`) or Store (anything else), in order, against one hierarchy built
  once.

How the files are laid out:

- `types.dfy`: the values, the memory, and the address arithmetic.
- `levels.dfy`: the specification of an access. `Lookup` is a pure function
  over a snapshot of every level (`LevelView`); the answer of an access is
  the first level holding the block, with the latencies summed.
- `policies.dfy`: the three policies as classes, with a pure `PolicyState`
  that specifies them.
- `cache.dfy`: the `Cache` class. Its set grid is an `array2<Line>` mirrored
  by a ghost `Lines`, and it owns the chain below it through a ghost `Repr`.
  Every Load and Store is proved to answer as `Lookup` does on the state
  before the access. It is also proved to take exactly one `AccessStep`,
  which says how the level's own lines, policy, counters and requests sent
  change.
- `stats.dfy`: the aggregation loop, proved against a pure `Tally`.
- `simulation.dfy`: the two driver loops.
- `scenarios.dfy`: the unit test's eviction scenario and the example
  program, expressed as calls to the verified methods.

Which blocks can be anywhere in the hierarchy is tracked through the
requests each level received. A level holds only blocks of addresses it was
asked for, and passes down only those addresses and the start addresses of
their blocks (write-backs). So when no request received at the top can have
brought the block of an address into any level (`Levels.Untouched`), the
memory answers that address after every latency. This is how the example
program's second and fourth answers are derived.

What every level below the top holds after an access is recorded in
journals. Each level keeps a ghost `steps`: its state as built, then its
state after each request it received, each request taking one `AccessStep`.
`Logs` lists the journals of a hierarchy, top first. `Journal` says that they
chain together: each level below the top received exactly the requests the
level above it sent. `ChainAt(logs, n)` is the state of every level once the
top level has received n requests, and `Hierarchy` turns it into the
snapshot `Lookup` reads. The drivers prove that the hierarchy met by request
i is `Hierarchy(shapes, ChainAt(logs, i))`, so an answer from L2 or L3 for a
block fetched earlier follows from the lower levels' own AccessSteps
(`Scenarios.RefetchFromL2`).

An answer whose level is absent from the hierarchy list: the walk in
`src/main.cpp` 44-58 goes through the whole list first, so such an answer
adds a miss to every listed level, and only then is the error reported
(`Stats.UnknownLevelMissesEverywhere`).

The driver returns the hierarchy it built, which the C++ function destroys
on return, so that its contract can speak of the hierarchy's final state.
The memory's name, a template argument in C++, is a parameter of the driver.

## Model

| member | source | states |
|---|---|---|
| Types.MainMemory.Load | include/nano_cache_sim/cache_sim.hpp:38-40 | the memory always answers a Load with its own name and its latency |
| Types.MainMemory.Store | include/nano_cache_sim/cache_sim.hpp:42 | the memory always answers a Store with its own name and its latency |
| Types.MemoryIgnoresAddress | include/nano_cache_sim/cache_sim.hpp:38-42 | the memory's answer depends on neither the address nor the kind of request |
| Types.SetIndex | include/nano_cache_sim/cache_sim.hpp:80 | the set index of any address is below the number of sets |
| Types.BlockAddressOfAddress | include/nano_cache_sim/cache_sim.hpp:80-81 | rebuilding an address from its tag and set gives `addr - addr % BlockSize`, so it never exceeds the address and stays within 64 bits when the address does |
| Types.DecomposeBlockAddress | include/nano_cache_sim/cache_sim.hpp:167 | the write-back address `(tag*Sets + set)*BlockSize` decomposes back into the same set index and tag, so the write-back goes to the evicted block |
| Types.WayOf | include/nano_cache_sim/cache_sim.hpp:84-90 | the hit scan returns the first way that is valid and holds the tag, or the number of ways when there is none |
| Types.WayOfExact | include/nano_cache_sim/cache_sim.hpp:84-90 | any way that holds the tag with no earlier way holding it is the way the hit scan finds |
| Types.HoldsIff | include/nano_cache_sim/cache_sim.hpp:84-91 | a set hits exactly when some way is valid and holds the tag |
| Types.FirstInvalid | include/nano_cache_sim/cache_sim.hpp:155-161 | the fill scan returns the lowest invalid way, or the number of ways when every way is valid |
| Types.FirstInvalidExact | include/nano_cache_sim/cache_sim.hpp:155-161 | a way that is invalid with all earlier ways valid is the way the fill scan finds |
| Types.FillKeepsWellFormed | include/nano_cache_sim/cache_sim.hpp:173-176 | filling a tag the set lacks, into the lowest invalid way or into any way of a full set, keeps one valid line per tag and the valid lines first; the tag is then found in the filled way, and no line is invalidated |
| Types.DirtyKeepsWellFormed | include/nano_cache_sim/cache_sim.hpp:115 | marking a line dirty keeps the set well formed and invalidates nothing |
| Types.FillFirstInvalid | include/nano_cache_sim/cache_sim.hpp:155-161 | while a set is not full, each fill moves its lowest invalid way up by one |
| Types.FullStaysFull | include/nano_cache_sim/cache_sim.hpp:173-175 | once every way of a set is valid it stays so, since no line is ever invalidated |
| Levels.Lookup | include/nano_cache_sim/cache_sim.hpp:84-103 | no access costs more than one that no level holds: the memory's latency plus every level's hit latency |
| Levels.FirstResident | include/nano_cache_sim/cache_sim.hpp:93-95 | the first level holding the block: every level above it misses |
| Levels.Names | src/main.cpp:25 | the names of the levels, top first, one per level |
| Levels.LookupIsFirstResident | include/nano_cache_sim/cache_sim.hpp:89-98 | an access is answered by the first level holding the block, with the hit latencies of that level and every level above it summed; when no level holds it, by the memory with all the cache latencies added |
| Levels.ColdAccess | include/nano_cache_sim/cache_sim.hpp:95-98 | a block held nowhere is answered by the memory at its latency plus the sum of every cache level's hit latency |
| Levels.LookupHitLevelKnown | include/nano_cache_sim/cache_sim.hpp:89-98 | the answering level is one of the hierarchy's names or the memory's, and the cycles are at least the top level's hit latency |
| Levels.EmptyLines | include/nano_cache_sim/cache_sim.hpp:76 | a fresh level has Sets sets of Ways lines, every one invalid, clean and tagged 0 |
| Levels.EmptyHoldsNothing | include/nano_cache_sim/cache_sim.hpp:76 | a fresh hierarchy holds no block |
| Levels.UntouchedMono | include/nano_cache_sim/cache_sim.hpp:93-101 | a block that more requests cannot have brought into the hierarchy cannot have been brought in by fewer |
| Levels.UntouchedOneBlockSize | include/nano_cache_sim/cache_sim.hpp:80-81 | when every level has the same block size, requests for block starts outside the block of an address cannot bring that block into any level |
| Policies.MinIndex | include/stratum/policies.hpp:33-41 | the LRU victim has a minimal stamp in its set, and every way before it has a strictly larger stamp (lowest index wins ties) |
| Policies.NewestIsNotVictim | include/stratum/policies.hpp:24-42 | a way whose stamp is strictly the largest of at least two ways is never the LRU victim |
| Policies.StepsKeepConsistent | include/stratum/policies.hpp:24-30 | hits and fills keep the policy's arrays shaped by sets and ways (FIFO pointers below the way count), and under LRU with two or more ways the way just touched is not the next victim |
| Policies.LRUPolicy.constructor | include/stratum/policies.hpp:19-22 | LRU starts with every stamp and every set counter at 0 |
| Policies.LRUPolicy.OnHit | include/stratum/policies.hpp:24-26 | the set's counter grows by one and becomes the way's stamp; no other set or way changes |
| Policies.LRUPolicy.OnFill | include/stratum/policies.hpp:28-30 | the set's counter grows by one and becomes the way's stamp; no other set or way changes |
| Policies.LRUPolicy.GetVictim | include/stratum/policies.hpp:32-42 | the victim is a way in range, and it is the lowest-index way of minimal stamp while the set's counter fits in 64 bits; the policy is not changed |
| Policies.FIFOPolicy.constructor | include/stratum/policies.hpp:52-54 | FIFO starts with every set's pointer at way 0 |
| Policies.FIFOPolicy.OnFill | include/stratum/policies.hpp:60-63 | the set's pointer advances by one modulo the number of ways, whatever way was filled |
| Policies.FIFOPolicy.GetVictim | include/stratum/policies.hpp:65 | the victim is the set's pointer, which is a way in range; nothing changes |
| Policies.RandomPolicy.constructor | include/stratum/policies.hpp:75 | the Random policy keeps only the geometry |
| Policies.RandomPolicy.GetVictim | include/stratum/policies.hpp:80-83 | the victim is some way in range (the top of the distribution wraps to 2^64-1 when there are no ways) |
| Policies.InitialStateConsistent | include/stratum/policies.hpp:19-22 | a fresh policy of any kind is consistent with its geometry; FIFO pointers start at 0 |
| Policies.NewPolicy | include/stratum/policies.hpp:19-22 | the policy a level builds has the kind asked for and its initial state |
| Policies.OnHit | include/nano_cache_sim/cache_sim.hpp:88 | a hit advances the level's policy as its kind does on a hit (FIFO and Random ignore it) |
| Policies.OnFill | include/nano_cache_sim/cache_sim.hpp:176 | a fill advances the level's policy as its kind does on a fill |
| Policies.GetVictim | include/nano_cache_sim/cache_sim.hpp:164 | the victim is the one the level's policy kind names: the LRU argmin, the FIFO pointer, or any way for Random |
| CacheSim.ConfigViews | include/nano_cache_sim/cache_sim.hpp:72-77 | a freshly built hierarchy is one empty, well-formed level per configuration, with the configured name, geometry and latency |
| CacheSim.FifoAfterFill | include/stratum/policies.hpp:60-65 | with fills taking invalid ways 0, 1, … in order, the FIFO pointer of a set that is not full names its lowest invalid way, and the fill that makes the set full brings it back to way 0, the oldest fill |
| CacheSim.FillThenDirty | include/nano_cache_sim/cache_sim.hpp:127-134 | a Store miss's clean fill followed by marking the found line dirty is a dirty fill of the way that was filled |
| CacheSim.AccessLeavesResident | include/nano_cache_sim/cache_sim.hpp:79-104 | after any Load or Store the block is held in its set, and no other set has changed |
| CacheSim.AccessCountsOnce | include/nano_cache_sim/cache_sim.hpp:84-122 | each Load or Store adds exactly one hit (when the block was held) or one miss (when it was not) |
| CacheSim.AccessKeepsSetWellFormed | include/nano_cache_sim/cache_sim.hpp:84-101 | an access keeps its set free of duplicate tags with the valid lines first, and invalidates none of its lines |
| CacheSim.StoreLeavesDirty | include/nano_cache_sim/cache_sim.hpp:111-134 | after a Store, hit or miss, the line holding the block is valid and dirty |
| CacheSim.LoadHitKeepsLines | include/nano_cache_sim/cache_sim.hpp:84-90 | a Load hit changes no line, sends nothing to the next level, counts one hit and records the hit in the policy |
| CacheSim.MissTakesFreeWay | include/nano_cache_sim/cache_sim.hpp:155-161 | a miss on a set with an invalid way fills the lowest invalid way (dirty for a Store), and the only request sent down is the Load of the block |
| CacheSim.LruMissEvictsOldest | include/nano_cache_sim/cache_sim.hpp:163-176 | under LRU, a miss on a full set replaces the way of minimal stamp, lowest first; it sends down the Load, then a Store of the victim's block address when the victim is dirty |
| CacheSim.Cache.constructor | include/nano_cache_sim/cache_sim.hpp:72-77 | building a level builds the levels below it down to the memory; every set is empty, the policy is fresh, the counters are 0 and nothing has been sent |
| CacheSim.Cache.Views | include/nano_cache_sim/cache_sim.hpp:60-64 | the snapshot of a valid hierarchy is well formed, with this level on top |
| CacheSim.Cache.FindWay | include/nano_cache_sim/cache_sim.hpp:84-91 | the loop over the set's ways finds the way the hit scan specifies |
| CacheSim.Cache.ShapesMatch | include/nano_cache_sim/cache_sim.hpp:47-52 | the names, geometry and hit latencies recorded when the hierarchy was built are those of every level at any later time |
| CacheSim.LevelJournalSnoc | include/nano_cache_sim/cache_sim.hpp:79-137 | a level's journal continued by the state one more request's AccessStep reaches is its journal over the requests so far and that one |
| CacheSim.ChainAtExtends | include/nano_cache_sim/cache_sim.hpp:93-101 | while every level's journal only grows, the states the chain had at any earlier request stay as they were recorded |
| CacheSim.Cache.JournalOf | include/nano_cache_sim/cache_sim.hpp:93-101 | the journals of a valid hierarchy chain together: the top level's over the requests it received, and each level below over exactly the requests the level above it sent |
| CacheSim.Cache.CurrentChain | include/nano_cache_sim/cache_sim.hpp:60-64 | the hierarchy as it is now is the journals' chain after every request the top level received, with the shapes it was built with |
| CacheSim.Cache.NotHeld | include/nano_cache_sim/cache_sim.hpp:93-101 | a level holds no block that none of the addresses it was asked for lies in |
| CacheSim.Cache.ColdWhenUntouched | include/nano_cache_sim/cache_sim.hpp:93-98 | an address whose block no request received at the top can have brought into any level is answered by the memory, at its latency plus every level's hit latency |
| CacheSim.Cache.Serve | include/nano_cache_sim/cache_sim.hpp:95 | a request from the level above is answered as Lookup answers on the hierarchy before the request, is logged, and takes the lower level through one AccessStep (a Store for a write-back), which its journal records; the journals of the levels below it only grow |
| CacheSim.Cache.SendDown | include/nano_cache_sim/cache_sim.hpp:93-98 | a request passed to the next level (the fetch of a miss, or the write-back of a dirty victim) is answered as Lookup answers on the levels below; it is logged as sent, nothing else of this level changes, and the journals of the levels below only grow, the next level's recording its step over that request |
| CacheSim.Cache.Load | include/nano_cache_sim/cache_sim.hpp:79-104 | a Load answers as Lookup on the hierarchy before it, and this level takes one AccessStep (hit: count it and tell the policy; miss: count it, Load from the next level, fill); every level keeps its journal, and the journals only grow, so each lower level's new state is its AccessStep over the requests newly sent to it |
| CacheSim.Cache.Store | include/nano_cache_sim/cache_sim.hpp:106-137 | a Store answers as Lookup on the hierarchy before it; a hit marks the line dirty; a miss Loads the block (write-allocate), fills it and marks it dirty; every level keeps its journal, as for Load |
| CacheSim.Cache.Access | include/nano_cache_sim/cache_sim.hpp:79-137 | the shared work of Load and Store keeps the hierarchy valid and takes one AccessStep |
| CacheSim.Cache.HitAt | include/nano_cache_sim/cache_sim.hpp:84-90 | a hit answers with this level's name and hit latency, without calling the next level |
| CacheSim.Cache.MissAt | include/nano_cache_sim/cache_sim.hpp:93-103 | a miss answers with the next level's answer plus this level's hit latency; a write-back made by the fill adds nothing to it |
| CacheSim.Cache.MissFill | include/nano_cache_sim/cache_sim.hpp:121-134 | a miss counts one miss, sends a Load of the address down, then fills the block (dirty for a Store) |
| CacheSim.Cache.Miss | include/nano_cache_sim/cache_sim.hpp:94-101 | a miss counts one miss, sends a Load of the address down, never a Store, and then fills the block clean |
| CacheSim.Cache.Hit | include/nano_cache_sim/cache_sim.hpp:87-88 | a hit counts one hit, tells the policy, and for a Store marks only that line dirty |
| CacheSim.Cache.MarkDirty | include/nano_cache_sim/cache_sim.hpp:129-134 | only the dirty bit of the given line changes |
| CacheSim.Cache.Fill | include/nano_cache_sim/cache_sim.hpp:154-177 | the fill takes the lowest invalid way, or the policy's victim only when the set is full; it writes back a valid dirty victim and counts an eviction; the filled line ends valid, clean and holding the tag |
| CacheSim.Cache.EvictDirty | include/nano_cache_sim/cache_sim.hpp:165-170 | a Store of the victim's block address is sent down, through SendDown, and an eviction is counted exactly when the victim is valid and dirty; the lines and the policy do not change |
| CacheSim.Cache.Install | include/nano_cache_sim/cache_sim.hpp:173-176 | the chosen way becomes valid, clean and holding the tag, and the policy records the fill |
| Stats.FirstIndex | src/main.cpp:45-50 | the walk stops at the first name equal to the answering level, or walks every name when there is none |
| Stats.Tally | src/main.cpp:41-59 | the table has entries only for levels of the hierarchy list |
| Stats.WalkKeys | src/main.cpp:45-54 | walking one answer removes no entry and adds entries only for listed levels |
| Stats.WalkAnswer | src/main.cpp:44-58 | the inner loop updates the table as Walk specifies, and its flag is set exactly when the answering level is in the list |
| Stats.Aggregate | src/main.cpp:43-59 | the nested loops build exactly the per-level table that Tally specifies, and list, in order, the answering levels missing from the hierarchy |
| Stats.WalkPerName | src/main.cpp:45-55 | walking one answer adds a hit and its cycles to the first matching name, and a miss for each occurrence of a name before it; with duplicate names the first match wins |
| Stats.WalkDistinct | src/main.cpp:45-55 | for distinct names, levels before the answering one gain one miss, the answering one a hit and the answer's cycles, and levels after it nothing |
| Stats.UnknownLevelMissesEverywhere | src/main.cpp:44-58 | an answer from a level absent from the list adds a miss to every listed level and no hit or latency anywhere |
| Stats.WalkSumHits | src/main.cpp:43-55 | over distinct names, the total of hits grows by one exactly when the answering level is in the list |
| Stats.TallyHits | src/main.cpp:43-59 | the hits summed over the levels equal the number of answers whose level is listed; with the unknown answers they add up to the whole history |
| Stats.UnfoundNone | src/main.cpp:56-58 | no error is reported exactly when every answering level is in the list |
| Stats.TallyPerLevel | src/main.cpp:43-59 | a listed level's row counts as hits the answers it gave, as misses the answers given by no level up to and including it, and as latency the cycles of the answers it gave |
| Stats.AverageLatency | src/main.cpp:66-69 | the average is total latency divided by hits when there are hits, and 0 otherwise |
| Stats.Report | src/main.cpp:66-73 | one row per hierarchy name, in order, with its hits, misses and average latency (total latency over hits, 0 without hits); a level never touched reports zeros |
| Simulation.Dispatch | include/nano_cache_sim/simulation.hpp:68-72 | an operation of type `'L'` becomes a Load, and any other type a Store, of the same address |
| Simulation.FreshIsCold | src/main.cpp:19-28 | the first access to a freshly built hierarchy is answered by the memory at its latency plus every level's hit latency |
| Simulation.AnswerIsNamed | src/main.cpp:25 | every answer names a level of the hierarchy or the memory |
| Simulation.RepeatHitsTop | include/nano_cache_sim/cache_sim.hpp:84-90 | right after any access, the same address hits the top level |
| Simulation.Answerable | include/nano_cache_sim/cache_sim.hpp:79-104 | an access issued at the top of a valid hierarchy is answered by one of its named levels; the hierarchy keeps the names and shapes it was built with; and the memory answers, after every latency, an address whose block no earlier request can have brought in |
| Simulation.ChainedSnoc | include/nano_cache_sim/cache_sim.hpp:93-101 | when the journals only grow, the hierarchies already recorded at their requests stay so, and the one met by the next request joins them |
| Simulation.LoadLogged | src/main.cpp:36 | a Load from the top level answers as Lookup on the hierarchy it met, which is the journals' chain at that request, and the hierarchies recorded before stay recorded |
| Simulation.LoadAt | src/main.cpp:35-37 | one Load of the example loop extends the record by its answer, the hierarchy it met and the state it left; the hierarchies recorded stay those the journals hold at their requests |
| Simulation.RunLoads | src/main.cpp:32-38 | one answer per address, in input order. Each is what Lookup gives on the hierarchy of that moment, which keeps its names, geometry and latencies. That hierarchy, every level of it, is the chain the journals record at that request, and the journals chain every level to the requests the level above it sent. An answer is the memory's after every latency when the Loads before it cannot have brought its block in, and every step of the top level is recorded |
| Simulation.RunTraceSimulation | include/nano_cache_sim/simulation.hpp:52-75 | no access and no hierarchy when the trace is empty. Otherwise one hierarchy is built once over the named memory with its latency, and it receives exactly the trace's requests. There is one answer and one address per operation, in order; answer i is Lookup's on the hierarchy it met, which is every level's state as the journals record it at request i, and names a known level. The first answer, and every answer whose block no earlier operation can have brought in, is the memory's after every latency. The top level takes one AccessStep per operation, and each level below one per request sent to it |
| Simulation.BuildSystem | include/nano_cache_sim/simulation.hpp:58-61 | the hierarchy a trace runs against is built once from its configurations over the named memory: empty, journaled, with nothing received, and with the configured names, geometry and latencies |
| Simulation.Step | include/stratum/simulation.hpp:69-74 | one operation is sent to the hierarchy as its dispatched request, answered as Lookup gives on the hierarchy it met, which is the journals' chain at that request, and takes the top level through one AccessStep, a write for a Store |
| Simulation.StepAt | include/stratum/simulation.hpp:68-76 | one iteration of the trace loop extends the record by the operation's answer, the hierarchy it met and the state it left; the hierarchies recorded stay those the journals hold at their requests |
| Simulation.RunOps | include/stratum/simulation.hpp:68-77 | the hierarchy receives exactly the dispatched requests of the operations, in order. The history and the addresses have one entry per operation, and each answer is Lookup's on the hierarchy it met, every level of which is the journals' chain at that request. An answer is the memory's after every latency when no earlier operation can have brought its block in, and the top level takes one AccessStep per operation, each lower level one per request sent to it |
| Scenarios.EvictionTest | test/unit/test_main.cpp:14-33 | in the one-set, two-way LRU test, the Load of 0x80 is answered by "MainMemory" at 101 cycles and replaces the block of 0x40, keeping 0x0 |
| Scenarios.TinyTrace | test/unit/test_main.cpp:24-31 | the test's set goes through the four Loads to hold the blocks of 0x0 and 0x80, with one hit and three misses |
| Scenarios.TinyEvict | test/unit/test_main.cpp:30-31 | on the full set, LRU evicts way 1 (stamp 2 below 3) |
| Scenarios.ExampleProgram | src/main.cpp:19-73 | in the example program the first, second and fourth Loads are answered by MainMemory at 134 cycles and the third and fifth by L1 at 4. L1 ends with 2 hits and 3 misses, and no answer is unknown. The report rows are L1 2/3 averaging 8/2, L2 0/3, L3 0/3 and MainMemory 3/0 averaging 402/3, so the report counts one hit per Load |
| Scenarios.ExampleLoads | src/main.cpp:28-38 | the example's five Loads through L1 → L2 → L3 → memory give the history memory, memory, L1, memory, L1, and leave L1's set 0 holding the three blocks |
| Scenarios.ExampleAggregation | src/main.cpp:43-73 | the aggregation of the example's history reports no error and the four rows, with five hits in all |
| Scenarios.ExampleRecord | src/main.cpp:35-38 | from the record of the five Loads: the history is memory, memory, L1, memory, L1, and L1 ends holding the three blocks with 2 hits and 3 misses |
| Scenarios.ExampleAnswers | src/main.cpp:35-38 | from the contents of L1's set 0 before each Load, the third and fifth Loads hit L1 at 4 cycles and the second and fourth miss it |
| Scenarios.ExampleUntouched | src/main.cpp:33 | when 0x2000 and 0x3000 are first loaded, only addresses of other 64-byte blocks were asked for before, so no level can hold them |
| Scenarios.ExampleColdAnswers | src/main.cpp:35-38 | the second and fourth Loads are answered by MainMemory at 134 cycles |
| Scenarios.ExampleColdStart | src/main.cpp:19-22 | the example's cold access costs 100 + 20 + 10 + 4 cycles |
| Scenarios.ExampleReport | src/main.cpp:43-59 | the aggregation of the example's history has no error: L1 counts 2 hits, 3 misses and 8 cycles; L2 and L3 count 3 misses each; MainMemory counts 3 hits and 402 cycles; 5 hits in all |
| Scenarios.ExampleL1Row | src/main.cpp:43-59 | L1's tally in the example: 2 hits, 3 misses, 8 cycles |
| Scenarios.ExampleL2Row | src/main.cpp:43-59 | L2's tally in the example: no hit, 3 misses |
| Scenarios.ExampleL3Row | src/main.cpp:43-59 | L3's tally in the example: no hit, 3 misses |
| Scenarios.ExampleMemoryRow | src/main.cpp:43-59 | MainMemory's tally in the example: 3 hits, no miss, 402 cycles |
| Scenarios.ExampleTallyInputs | src/main.cpp:43-55 | which of the example's answers each level gave, and how many none of a list of upper levels gave |
| Scenarios.ExampleRowsOf | src/main.cpp:66-73 | the report printed from the example's tallies is the four rows L1 2/3 (8/2), L2 0/3, L3 0/3 and MainMemory 3/0 (402/3) |
| Scenarios.RefetchFromL2 | include/nano_cache_sim/cache_sim.hpp:93-101 | with L1 of one way over L2 of two ways, Loads of 0x0, 0x40 and 0x0 are answered by MainMemory at 111 cycles, MainMemory at 111, and L2 at 11: the block L1 evicted is fetched again from L2 |
| Scenarios.RefetchHistory | include/nano_cache_sim/cache_sim.hpp:93-101 | any run of those three Loads whose hierarchies are its journals' chains answers MainMemory 111, MainMemory 111, L2 11 |
| Scenarios.RefetchViews | include/nano_cache_sim/cache_sim.hpp:93-101 | the hierarchies the three Loads meet: both levels empty; L1 and L2 holding the block of 0x0; L1 holding only the block of 0x40 and L2 both blocks |
| Scenarios.RefetchAnswers | include/nano_cache_sim/cache_sim.hpp:84-98 | on those hierarchies Lookup answers MainMemory at 100 + 10 + 1 cycles twice, then L2 at 10 + 1 cycles |
| Scenarios.RefetchTop | include/nano_cache_sim/cache_sim.hpp:93-101 | L1 misses on each of the three Loads and sends each of them down to L2, in order |
| Scenarios.RefetchTopSteps | include/nano_cache_sim/cache_sim.hpp:154-176 | L1's single way holds the block of 0x0 after the first Load and that of 0x40 after the second, with the Loads sent down logged |
| Scenarios.RefetchBelow | include/nano_cache_sim/cache_sim.hpp:155-161 | L2 fills its two invalid ways in turn with the first two blocks it is asked for |
| Scenarios.OneWayReplace | include/nano_cache_sim/cache_sim.hpp:163-176 | a Load missing in a one-way set holding a clean block replaces it and sends down only the Load, with no write-back |

## Left out

- Printing: `PrintStats` and `PrintAllStats`, the report and history printing of the example program, and the error message for an unknown level (which appears only as the `unknown` list). `PrintSimulationStats` and `PrintAccessLog`, with the 20-operation log threshold, are not part of this model.
- Trace parsing: reading the trace file and parsing its lines is not part of this model. The driver takes the operations as a sequence of `TraceOp` values, and an unreadable file is the empty sequence.
- The `double` average and its formatting: the average is kept as the exact ratio of total latency to hits.
- The templates and `FixedString` names: the names and geometry of a level are constructor arguments and fields. The C++ compile-time composition of levels is the `Next` datatype (memory or a lower `Cache`), and the shared policy interface is the `Policy` datatype with dispatching methods.
- The random engine of the Random policy: its victim is an arbitrary way in range.
- Unsigned wrap-around of `size_t` and `uint64_t`: counters, tags, addresses and LRU stamps are unbounded naturals.
- The `nano_cache_sim/policies.hpp` header included by the cache, and `stratum/cache_sim.hpp` and `stratum/trace_parser.hpp`, are not part of this model. The policies follow `include/stratum/policies.hpp`.
- The two `simulation.hpp` files hold the same loop, which is modelled once. `Simulation.RunTraceSimulation` cites the nano_cache_sim copy, and `Simulation.Step` and `Simulation.RunOps` cite the stratum copy.
- The trace generator script `test/data/gen.py`, which uses random floats and writes files.
- Policies.LRUPolicy.GetVictim: the argmin is promised only while the set's counter fits in 64 bits. The source's `min_time` starts at `UINT64_MAX`, so with larger stamps it would return way 0.
- CacheSim.LruMissEvictsOldest: it also assumes the set's counter fits in 64 bits, for the same reason.
- Policies.FIFOPolicy.OnFill: it requires at least one way, where the source's `% num_ways_` would divide by zero.
- The per-level counters of L2 and L3 (their own hits, misses and evictions) after the example's Loads are not derived. Only their contents as far as the answers need them are: they cannot hold a block no earlier Load asked for.
