/** Two concrete runs: the eviction test of the unit tests (one set of two
    ways under LRU, where the block touched least recently is the one
    evicted) and the example program (three LRU levels over the memory, five
    Loads, then the aggregation of their answers). */
module Scenarios {
  import opened Types
  import opened Levels
  import opened CacheSim
  import opened Stats
  import opened Simulation
  import Policies

  /** An unoccupied line, as a fresh level holds everywhere. */
  const Empty: Line := Line(false, false, 0)

  /** A clean valid line holding `tag`, as a Load fill leaves it. */
  function Clean(tag: nat): Line
  {
    Line(true, false, tag)
  }

  /** A fresh "Tiny" level: its one set empty, its LRU stamps and counter 0. */
  lemma TinyStart()
    ensures EmptyLines(1, 2) == [[Empty, Empty]]
    ensures Policies.InitialState(Policies.LRUKind, 1, 2) == Policies.LRUState([[0, 0]], [0])
  {
    assert EmptyLines(1, 2)[0] == [Empty, Empty];
    assert Policies.InitialState(Policies.LRUKind, 1, 2).stamps[0] == [0, 0];
  }

  /** The unit test: a level "Tiny" of one set of two ways, 64-byte blocks,
      LRU and hit latency 1 over the default memory. Loads of 0x0 and 0x40
      fill both ways, a second Load of 0x0 makes way 0 the most recent, and
      the Load of 0x80 misses to the memory and replaces way 1 (the block of
      0x40), keeping 0x0. */
  method EvictionTest() returns (cache: Cache, res: AccessResult)
    ensures cache.Valid()
    ensures res == AccessResult(DEFAULT_MEMORY_NAME, DEFAULT_MEMORY_LATENCY + 1)
    ensures cache.Lines == [[Clean(0), Clean(2)]]
    ensures cache.hits == 1 && cache.misses == 3 && cache.evictions == 0
  {
    var tiny := LevelConfig("Tiny", 1, 2, 64, Policies.LRUKind, 1);
    cache := new Cache(tiny, [], MainMemory(DEFAULT_MEMORY_NAME, DEFAULT_MEMORY_LATENCY));
    cache.ViewsUnfold();
    TinyStart();
    ghost var s0 := cache.State();
    var _ := cache.Load(0x0);
    ghost var s1 := cache.State();
    var _ := cache.Load(0x40);
    ghost var s2 := cache.State();
    var _ := cache.Load(0x0);
    ghost var s3 := cache.State();
    cache.ViewsUnfold();
    res := cache.Load(0x80);
    TinyTrace(s0, s1, s2, s3, cache.State());
    TinyLastMisses(s3.lines, cache.bottom);
  }

  /** The states the eviction test goes through, from a fresh "Tiny" level. */
  lemma TinyTrace(s0: LevelState, s1: LevelState, s2: LevelState, s3: LevelState, s4: LevelState)
    requires s0 == LevelState([[Empty, Empty]], Policies.LRUState([[0, 0]], [0]), 0, 0, 0, [])
    requires AccessStep(1, 64, s0, s1, 0x0, false)
    requires AccessStep(1, 64, s1, s2, 0x40, false)
    requires AccessStep(1, 64, s2, s3, 0x0, false)
    requires AccessStep(1, 64, s3, s4, 0x80, false)
    ensures s3.lines == [[Clean(0), Clean(1)]]
    ensures s4.lines == [[Clean(0), Clean(2)]]
    ensures s4.hits == 1 && s4.misses == 3 && s4.evictions == 0
  {
    TinyFirstFill(s0, s1);
    TinySecondFill(s1, s2);
    TinyHit(s2, s3);
    TinyEvict(s3, s4);
  }

  /** Load 0x0 fills way 0 and stamps it 1. */
  lemma TinyFirstFill(s0: LevelState, s1: LevelState)
    requires s0.lines == [[Empty, Empty]] && s0.policy == Policies.LRUState([[0, 0]], [0])
    requires AccessStep(1, 64, s0, s1, 0x0, false)
    ensures s1.lines == [[Clean(0), Empty]] && s1.policy == Policies.LRUState([[1, 0]], [1])
    ensures s1.hits == s0.hits && s1.misses == s0.misses + 1 && s1.evictions == s0.evictions
  {
    TinyFreeMiss(s0, s1, 0x0, [Empty, Empty], 0, 0);
    assert [Empty, Empty][0 := Clean(0)] == [Clean(0), Empty];
    assert [0, 0][0 := 1] == [1, 0];
    assert [[0, 0]][0 := [1, 0]] == [[1, 0]];
    assert [0][0 := 1] == [1];
  }

  /** Load 0x40 fills way 1 and stamps it 2: the set is full. */
  lemma TinySecondFill(s1: LevelState, s2: LevelState)
    requires s1.lines == [[Clean(0), Empty]] && s1.policy == Policies.LRUState([[1, 0]], [1])
    requires AccessStep(1, 64, s1, s2, 0x40, false)
    ensures s2.lines == [[Clean(0), Clean(1)]] && s2.policy == Policies.LRUState([[1, 2]], [2])
    ensures s2.hits == s1.hits && s2.misses == s1.misses + 1 && s2.evictions == s1.evictions
  {
    TinyFreeMiss(s1, s2, 0x40, [Clean(0), Empty], 1, 1);
    assert [Clean(0), Empty][1 := Clean(1)] == [Clean(0), Clean(1)];
    assert [1, 0][1 := 2] == [1, 2];
    assert [[1, 0]][0 := [1, 2]] == [[1, 2]];
    assert [1][0 := 2] == [2];
  }

  /** Load 0x0 hits way 0, which is stamped 3 and becomes the most recent. */
  lemma TinyHit(s2: LevelState, s3: LevelState)
    requires s2.lines == [[Clean(0), Clean(1)]] && s2.policy == Policies.LRUState([[1, 2]], [2])
    requires AccessStep(1, 64, s2, s3, 0x0, false)
    ensures s3.lines == s2.lines && s3.policy == Policies.LRUState([[3, 2]], [3])
    ensures s3.hits == s2.hits + 1 && s3.misses == s2.misses && s3.evictions == s2.evictions
  {
    WayOfExact([Clean(0), Clean(1)], 0, 0);
    LoadHitKeepsLines(1, 64, s2, s3, 0x0);
    assert [1, 2][0 := 3] == [3, 2];
    assert [[1, 2]][0 := [3, 2]] == [[3, 2]];
    assert [2][0 := 3] == [3];
  }

  /** Load 0x80 misses on the full set; LRU names way 1 (stamp 2 < 3), whose
      clean line is replaced without a write-back. */
  lemma TinyEvict(s3: LevelState, s4: LevelState)
    requires s3.lines == [[Clean(0), Clean(1)]] && s3.policy == Policies.LRUState([[3, 2]], [3])
    requires AccessStep(1, 64, s3, s4, 0x80, false)
    ensures s4.lines == [[Clean(0), Clean(2)]]
    ensures s4.hits == s3.hits && s4.misses == s3.misses + 1 && s4.evictions == s3.evictions
  {
    WayOfExact([Clean(0), Clean(1)], 2, 2);
    FirstInvalidExact([Clean(0), Clean(1)], 2);
    LruMissEvictsOldest(1, 64, s3, s4, 0x80, false);
    assert Policies.MinIndex([3, 2]) == 1;
    assert [Clean(0), Clean(1)][1 := Clean(2)] == [Clean(0), Clean(2)];
  }

  /** The Load of 0x80 finds neither block in the full set and goes to the
      memory, adding the level's latency of 1. */
  lemma TinyLastMisses(lines: seq<seq<Line>>, mem: MainMemory)
    requires lines == [[Clean(0), Clean(1)]]
    ensures Lookup([LevelView("Tiny", 1, 2, 64, 1, lines)], mem, 0x80) == AccessResult(mem.name, mem.latency + 1)
  {
    WayOfExact([Clean(0), Clean(1)], 2, 2);
  }

  /** One miss of the eviction test on its single set while a way is free. */
  lemma TinyFreeMiss(st: LevelState, st': LevelState, addr: nat, row: seq<Line>, tag: nat, w: nat)
    requires AccessStep(1, 64, st, st', addr, false)
    requires st.lines == [row] && SetIndex(addr, 1, 64) == 0 && Tag(addr, 1, 64) == tag
    requires w < |row| && !row[w].valid && forall j | 0 <= j < w :: row[j].valid && row[j].tag != tag
    requires forall j | w < j < |row| :: !row[j].valid
    ensures st'.lines == [row[w := Clean(tag)]]
    ensures Policies.InRange(st.policy, 0, w, |row|) && st'.policy == Policies.AfterFill(st.policy, 0, w, |row|)
    ensures st'.hits == st.hits && st'.misses == st.misses + 1 && st'.evictions == st.evictions
  {
    WayOfExact(row, tag, |row|);
    FirstInvalidExact(row, w);
    MissTakesFreeWay(1, 64, st, st', addr, false);
  }

  /** The levels of the example program, top first, over a memory "MainMemory"
      of latency 100; the names its report walks; and the addresses it loads.
      With 64 sets of 64-byte blocks in L1, the three addresses all fall in
      set 0 of L1, with tags 1, 2 and 3. */
  const ExampleLevels: seq<LevelConfig> := [
    LevelConfig("L1", 64, 8, 64, Policies.LRUKind, 4),
    LevelConfig("L2", 512, 8, 64, Policies.LRUKind, 10),
    LevelConfig("L3", 8192, 16, 64, Policies.LRUKind, 20)]

  const Hierarchy: seq<string> := ["L1", "L2", "L3", "MainMemory"]

  const ExampleTrace: seq<nat> := [0x1000, 0x2000, 0x1000, 0x3000, 0x1000]

  /** The answers of the example program: the memory after every latency
      (100 + 4 + 10 + 20 cycles) for the three first Loads of a block, L1 at
      its hit latency for the two repeated Loads of 0x1000. */
  const MemoryAnswer: AccessResult := AccessResult("MainMemory", 134)
  const L1Answer: AccessResult := AccessResult("L1", 4)
  const ExampleHistory: seq<AccessResult> := [MemoryAnswer, MemoryAnswer, L1Answer, MemoryAnswer, L1Answer]

  /** The report of the example program: L1 answers two Loads (8 cycles) and
      misses three, which L2 and L3 miss as well and the memory answers (402
      cycles). */
  const ExampleRows: seq<ReportRow> := [
    ReportRow("L1", 2, 3, Ratio(8, 2)),
    ReportRow("L2", 0, 3, Ratio(0, 1)),
    ReportRow("L3", 0, 3, Ratio(0, 1)),
    ReportRow("MainMemory", 3, 0, Ratio(402, 3))]

  /** A set of `ways` ways whose first ways hold clean lines with `tags`, in
      order, and whose other ways are unoccupied. */
  function Filled(ways: nat, tags: seq<nat>): seq<Line>
  {
    seq(ways, w requires 0 <= w < ways => if w < |tags| then Clean(tags[w]) else Empty)
  }

  /** The example program: build L1 over L2 over L3 over the memory, Load the
      five addresses from L1 recording each answer, aggregate the answers
      along the hierarchy's names and build the report. The Loads of 0x1000,
      0x2000 and 0x3000 that first ask for a block find it nowhere and the
      memory answers after 100 + 4 + 10 + 20 cycles; the block of 0x1000
      stays in L1, so the third and fifth Loads hit there at 4 cycles. No
      answer is reported as an error and the report has one row per level. */
  method ExampleProgram() returns (l1: Cache, history: seq<AccessResult>, unknown: seq<string>, rows: seq<ReportRow>)
    ensures l1.Valid()
    ensures history == ExampleHistory
    ensures l1.Lines[0] == Filled(8, [1, 2, 3]) && l1.hits == 2 && l1.misses == 3
    ensures unknown == []
    ensures rows == ExampleRows
    ensures rows[0].hits + rows[1].hits + rows[2].hits + rows[3].hits == 5
  {
    l1, history := ExampleLoads();
    unknown, rows := ExampleAggregation(history);
  }

  /** The first phase of the example program: the hierarchy is built and
      the five addresses are loaded from L1, each answer recorded. */
  method ExampleLoads() returns (l1: Cache, history: seq<AccessResult>)
    ensures l1.Valid()
    ensures history == ExampleHistory
    ensures l1.Lines[0] == Filled(8, [1, 2, 3]) && l1.hits == 2 && l1.misses == 3
  {
    l1 := BuildExample();
    ghost var views, states;
    history, views, states := RunLoads(l1, ExampleTrace);
    assert forall i | 0 <= i <= 5 :: [] + Reads(ExampleTrace)[..i] == Reads(ExampleTrace)[..i];
    ExampleRecord(l1, views, states, history);
  }

  /** The second phase: the answers are aggregated along the hierarchy's
      names and the report is built, one row per name. */
  method ExampleAggregation(history: seq<AccessResult>) returns (unknown: seq<string>, rows: seq<ReportRow>)
    requires history == ExampleHistory
    ensures unknown == []
    ensures rows == ExampleRows
    ensures rows[0].hits + rows[1].hits + rows[2].hits + rows[3].hits == 5
  {
    var db;
    db, unknown := Aggregate(history, Hierarchy);
    rows := Report(db, Hierarchy);
    ExampleReport(history, db, unknown);
    ExampleRowsOf(db);
    SumHitsOfHierarchy(db);
  }

  /** L1 over L2 over L3 over the memory, freshly built from the example's
      levels. */
  method BuildExample() returns (l1: Cache)
    ensures l1.Valid() && l1.Journaled() && fresh(l1.Repr)
    ensures l1.Views() == ConfigViews(ExampleLevels) && l1.Lines == EmptyLines(64, 8)
    ensures l1.name == "L1" && l1.numSets == 64 && l1.blockSize == 64 && l1.hitLatency == 4
    ensures l1.names == Hierarchy && l1.bottom == MainMemory("MainMemory", 100)
    ensures l1.shapes == Shapes(ConfigViews(ExampleLevels)) && l1.received == []
    ensures l1.hits == 0 && l1.misses == 0
  {
    var memory := MainMemory("MainMemory", 100);
    l1 := new Cache(ExampleLevels[0], ExampleLevels[1..], memory);
    assert [ExampleLevels[0]] + ExampleLevels[1..] == ExampleLevels;
    l1.NamesMatch();
    l1.ShapesMatch();
    ExampleNames(l1.Views(), ExampleLevels);
  }

  /** The names of a hierarchy built from the example's levels. */
  lemma ExampleNames(vs: seq<LevelView>, configs: seq<LevelConfig>)
    requires configs == ExampleLevels && vs == ConfigViews(configs)
    ensures Names(vs) + ["MainMemory"] == Hierarchy
    ensures vs[0] == LevelView("L1", 64, 8, 64, 4, EmptyLines(64, 8))
    ensures ConfigLatency(configs) == 34
  {
    assert configs[1..][1..][1..] == [];
  }

  /** What the record of the example's Loads shows: the answers, and set 0
      and the counters of L1 at the end. */
  lemma ExampleRecord(l1: Cache, views: seq<seq<LevelView>>, states: seq<LevelState>, history: seq<AccessResult>)
    requires l1.numSets == 64 && l1.blockSize == 64 && l1.name == "L1" && l1.hitLatency == 4
    requires l1.names == Hierarchy && l1.bottom == MainMemory("MainMemory", 100)
    requires l1.shapes == Shapes(ConfigViews(ExampleLevels))
    requires |history| == 5 && |views| == 5 && |states| == 6
    requires states[0].lines == EmptyLines(64, 8) && states[0].hits == 0 && states[0].misses == 0
    requires views[0] == ConfigViews(ExampleLevels)
    requires forall i | 0 <= i < |ExampleTrace| ::
               && AllWellFormed(views[i]) && |views[i]| > 0 && views[i][0] == TopView(l1, states[i].lines)
               && Names(views[i]) + [l1.bottom.name] == l1.names
               && history[i] == Lookup(views[i], l1.bottom, ExampleTrace[i])
               && history[i].hitLevel in l1.names
    requires forall i | 0 <= i < |ExampleTrace| ::
               Untouched(l1.shapes, Addrs(Reads(ExampleTrace)[..i]), ExampleTrace[i]) ==>
                 history[i] == ColdAnswer(l1)
    requires forall i | 0 <= i < |ExampleTrace| ::
               AccessStep(l1.numSets, l1.blockSize, states[i], states[i + 1], ExampleTrace[i], false)
    ensures history == ExampleHistory
    ensures |states[5].lines| == 64 && states[5].lines[0] == Filled(8, [1, 2, 3])
    ensures states[5].hits == 2 && states[5].misses == 3
  {
    ExampleColdStart(views[0], l1.bottom);
    ExampleFirstFills(states);
    ExampleLastLoads(states);
    ExampleAnswers(l1, views, states, history);
    ExampleColdAnswers(l1, history);
    ExampleHistoryIs(history);
  }

  lemma ExampleHistoryIs(history: seq<AccessResult>)
    requires |history| == 5 && history[0] == MemoryAnswer && history[1] == MemoryAnswer
    requires history[2] == L1Answer && history[3] == MemoryAnswer && history[4] == L1Answer
    ensures history == ExampleHistory
  {
  }

  /** The second and fourth Loads of the example, of blocks no earlier Load
      asked for, are answered by the memory after every latency. */
  lemma ExampleColdAnswers(l1: Cache, history: seq<AccessResult>)
    requires l1.shapes == Shapes(ConfigViews(ExampleLevels)) && l1.bottom == MainMemory("MainMemory", 100)
    requires |history| == 5
    requires forall i | 0 <= i < |ExampleTrace| ::
               Untouched(l1.shapes, Addrs(Reads(ExampleTrace)[..i]), ExampleTrace[i]) ==>
                 history[i] == ColdAnswer(l1)
    ensures history[1] == MemoryAnswer && history[3] == MemoryAnswer
  {
    ExampleUntouched();
  }

  /** The shapes of the example's levels: one block size, 64 bytes. */
  lemma ExampleShapes()
    ensures Shapes(ConfigViews(ExampleLevels)) ==
              [LevelView("L1", 64, 8, 64, 4, []), LevelView("L2", 512, 8, 64, 10, []),
               LevelView("L3", 8192, 16, 64, 20, [])]
  {
  }

  /** The blocks of 0x2000 and 0x3000 cannot be anywhere when they are first
      loaded: only 0x1000, then 0x1000 and 0x2000, were asked for before, in
      other 64-byte blocks. The memory then answers after every latency. */
  lemma ExampleUntouched()
    ensures Untouched(Shapes(ConfigViews(ExampleLevels)), Addrs(Reads(ExampleTrace)[..1]), 0x2000)
    ensures Untouched(Shapes(ConfigViews(ExampleLevels)), Addrs(Reads(ExampleTrace)[..3]), 0x3000)
    ensures SumLatency(Shapes(ConfigViews(ExampleLevels))) == 34
  {
    var shapes := Shapes(ConfigViews(ExampleLevels));
    ExampleShapes();
    var first, three := Reads(ExampleTrace)[..1], Reads(ExampleTrace)[..3];
    assert first == [Read(0x1000)] && three == [Read(0x1000), Read(0x2000), Read(0x1000)];
    assert Addrs(first) == {0x1000} by {
      assert first[0].addr == 0x1000;
    }
    assert Addrs(three) == {0x1000, 0x2000} by {
      assert three[0].addr == 0x1000 && three[1].addr == 0x2000;
    }
    UntouchedOneBlockSize(shapes, Addrs(first), 0x2000, 64);
    UntouchedOneBlockSize(shapes, Addrs(three), 0x3000, 64);
    SumLatencyShapes(ConfigViews(ExampleLevels));
    ConfigSumLatency(ExampleLevels);
    ExampleNames(ConfigViews(ExampleLevels), ExampleLevels);
  }

  /** The first Load of the example finds nothing in the fresh hierarchy:
      the memory answers, after the 100 cycles of the memory and the hit
      latencies 4, 10 and 20 of the three levels. */
  lemma ExampleColdStart(vs: seq<LevelView>, mem: MainMemory)
    requires vs == ConfigViews(ExampleLevels) && mem == MainMemory("MainMemory", 100)
    ensures AllWellFormed(vs) && Lookup(vs, mem, 0x1000) == AccessResult("MainMemory", 134)
  {
    FreshIsCold(ExampleLevels, mem, 0x1000);
    ExampleNames(vs, ExampleLevels);
  }

  /** Access i of the example takes L1 one AccessStep further on address i
      of the trace. */
  lemma ExampleStep(states: seq<LevelState>, i: nat, addr: nat)
    requires |states| == 6 && i < 5 && addr == ExampleTrace[i]
    requires forall j | 0 <= j < 5 :: AccessStep(64, 64, states[j], states[j + 1], ExampleTrace[j], false)
    ensures AccessStep(64, 64, states[i], states[i + 1], addr, false)
  {
  }

  /** The first two Loads of the example fill ways 0 and 1 of set 0 of L1. */
  lemma ExampleFirstFills(states: seq<LevelState>)
    requires |states| == 6 && states[0].lines == EmptyLines(64, 8)
    requires states[0].hits == 0 && states[0].misses == 0
    requires forall j | 0 <= j < 5 :: AccessStep(64, 64, states[j], states[j + 1], ExampleTrace[j], false)
    ensures |states[1].lines| == 64 && states[1].lines[0] == Filled(8, [1])
    ensures |states[2].lines| == 64 && states[2].lines[0] == Filled(8, [1, 2])
    ensures states[2].hits == 0 && states[2].misses == 2
  {
    ExampleStep(states, 0, 0x1000);
    ExampleStep(states, 1, 0x2000);
    assert EmptyLines(64, 8)[0] == Filled(8, []);
    assert [] + [1] == [1] && [1] + [2] == [1, 2];
    SetZeroMiss(states[0], states[1], 0x1000, [], 1);
    SetZeroMiss(states[1], states[2], 0x2000, [1], 2);
  }

  /** The last three Loads of the example: a hit on block 1, a fill of block
      3 into way 2, and another hit on block 1. */
  lemma ExampleLastLoads(states: seq<LevelState>)
    requires |states| == 6 && |states[2].lines| == 64 && states[2].lines[0] == Filled(8, [1, 2])
    requires states[2].hits == 0 && states[2].misses == 2
    requires forall j | 0 <= j < 5 :: AccessStep(64, 64, states[j], states[j + 1], ExampleTrace[j], false)
    ensures |states[3].lines| == 64 && states[3].lines[0] == Filled(8, [1, 2])
    ensures |states[4].lines| == 64 && states[4].lines[0] == Filled(8, [1, 2, 3])
    ensures |states[5].lines| == 64 && states[5].lines[0] == Filled(8, [1, 2, 3])
    ensures states[5].hits == 2 && states[5].misses == 3
  {
    ExampleStep(states, 2, 0x1000);
    ExampleStep(states, 3, 0x3000);
    ExampleStep(states, 4, 0x1000);
    assert [1, 2] + [3] == [1, 2, 3];
    SetZeroHit(states[2], states[3], 0x1000, [1, 2], 1, 0);
    SetZeroMiss(states[3], states[4], 0x3000, [1, 2], 3);
    SetZeroHit(states[4], states[5], 0x1000, [1, 2, 3], 1, 0);
  }

  /** A Load that misses in set 0 of L1 while a way is free fills the lowest
      free way with its block. */
  lemma SetZeroMiss(st: LevelState, st': LevelState, addr: nat, tags: seq<nat>, t: nat)
    requires AccessStep(64, 64, st, st', addr, false)
    requires SetIndex(addr, 64, 64) == 0 && Tag(addr, 64, 64) == t
    requires st.lines[0] == Filled(8, tags) && |tags| < 8 && t !in tags
    ensures |st'.lines| == |st.lines| && st'.lines[0] == Filled(8, tags + [t])
    ensures st'.hits == st.hits && st'.misses == st.misses + 1
  {
    var row := Filled(8, tags);
    WayOfExact(row, t, 8);
    FirstInvalidExact(row, |tags|);
    MissTakesFreeWay(64, 64, st, st', addr, false);
    assert row[|tags| := Clean(t)] == Filled(8, tags + [t]);
  }

  /** A Load that hits in set 0 of L1 leaves the lines as they were. */
  lemma SetZeroHit(st: LevelState, st': LevelState, addr: nat, tags: seq<nat>, t: nat, w: nat)
    requires AccessStep(64, 64, st, st', addr, false)
    requires SetIndex(addr, 64, 64) == 0 && Tag(addr, 64, 64) == t
    requires st.lines[0] == Filled(8, tags) && |tags| <= 8 && w < |tags| && tags[w] == t
    ensures st'.lines == st.lines
    ensures st'.hits == st.hits + 1 && st'.misses == st.misses
  {
    assert Filled(8, tags)[w].valid && Filled(8, tags)[w].tag == t;
    assert WayOf(Filled(8, tags), t) <= w;
    LoadHitKeepsLines(64, 64, st, st', addr);
  }

  /** An access of set 0 of a top level with 64 sets of 64-byte blocks whose
      set 0 holds `tags`: a held block is answered by the top level at its
      hit latency; any other is answered by a level below it or the memory. */
  lemma SetZeroAnswer(vs: seq<LevelView>, mem: MainMemory, names: seq<string>, addr: nat, tags: seq<nat>, t: nat)
    requires AllWellFormed(vs) && |vs| > 0 && vs[0].sets == 64 && vs[0].blockSize == 64
    requires SetIndex(addr, 64, 64) == 0 && Tag(addr, 64, 64) == t
    requires vs[0].lines[0] == Filled(8, tags) && |tags| <= 8
    requires Names(vs) + [mem.name] == names
    ensures t in tags ==> Lookup(vs, mem, addr) == AccessResult(vs[0].name, vs[0].hitLatency)
    ensures t !in tags ==> Lookup(vs, mem, addr).hitLevel in names[1..]
  {
    var row := Filled(8, tags);
    if t in tags {
      var w :| 0 <= w < |tags| && tags[w] == t;
      assert row[w].valid && row[w].tag == t;
      assert WayOf(row, t) <= w;
    } else {
      WayOfExact(row, t, 8);
      LookupHitLevelKnown(vs[1..], mem, addr);
      assert Names(vs[1..]) + [mem.name] == names[1..];
    }
  }

  /** The answers of the example program's Loads, from the contents of set 0
      of L1 before each of them. */
  lemma ExampleAnswers(l1: Cache, views: seq<seq<LevelView>>, states: seq<LevelState>, history: seq<AccessResult>)
    requires l1.numSets == 64 && l1.blockSize == 64 && l1.name == "L1" && l1.hitLatency == 4
    requires l1.names == Hierarchy
    requires |history| == 5 && |views| == 5 && |states| == 6
    requires forall i | 1 <= i < 5 :: |states[i].lines| == 64
    requires states[1].lines[0] == Filled(8, [1]) && states[2].lines[0] == Filled(8, [1, 2])
    requires states[3].lines[0] == Filled(8, [1, 2]) && states[4].lines[0] == Filled(8, [1, 2, 3])
    requires forall i | 0 <= i < 5 ::
               && AllWellFormed(views[i]) && |views[i]| > 0 && views[i][0] == TopView(l1, states[i].lines)
               && Names(views[i]) + [l1.bottom.name] == l1.names
               && history[i] == Lookup(views[i], l1.bottom, ExampleTrace[i])
    ensures history[2] == AccessResult("L1", 4) && history[4] == AccessResult("L1", 4)
    ensures history[1].hitLevel in Hierarchy[1..] && history[3].hitLevel in Hierarchy[1..]
  {
    SetZeroAnswer(views[1], l1.bottom, Hierarchy, 0x2000, [1], 2);
    SetZeroAnswer(views[2], l1.bottom, Hierarchy, 0x1000, [1, 2], 1);
    SetZeroAnswer(views[3], l1.bottom, Hierarchy, 0x3000, [1, 2], 3);
    SetZeroAnswer(views[4], l1.bottom, Hierarchy, 0x1000, [1, 2, 3], 1);
  }

  /** The aggregation of the example's answers: every answer names a level;
      L1 counts the two answers it gave (8 cycles) and misses the other three,
      which L2 and L3 miss as well; the memory counts the three it gave (402
      cycles); and the hits over the four names add up to the five Loads. */
  lemma ExampleReport(history: seq<AccessResult>, db: map<string, CacheStats>, unknown: seq<string>)
    requires history == ExampleHistory
    requires db == Tally(history, Hierarchy) && unknown == Unfound(history, Hierarchy)
    ensures unknown == []
    ensures Get(db, "L1") == CacheStats(2, 3, 8) && Get(db, "L2") == CacheStats(0, 3, 0)
    ensures Get(db, "L3") == CacheStats(0, 3, 0) && Get(db, "MainMemory") == CacheStats(3, 0, 402)
    ensures SumHits(db, Hierarchy) == 5
  {
    forall i | 0 <= i < |history|
      ensures history[i].hitLevel in Hierarchy
    {
    }
    UnfoundNone(history, Hierarchy);
    TallyHits(history, Hierarchy);
    ExampleL1Row(db);
    ExampleL2Row(db);
    ExampleL3Row(db);
    ExampleMemoryRow(db);
  }

  /** L1 answers two Loads, at 8 cycles in all, and misses three. */
  lemma ExampleL1Row(db: map<string, CacheStats>)
    requires db == Tally(ExampleHistory, Hierarchy)
    ensures Get(db, "L1") == CacheStats(2, 3, 8)
  {
    TallyPerLevel(ExampleHistory, Hierarchy, 0);
    assert Hierarchy[0] == "L1" && Hierarchy[..1] == ["L1"];
    ExampleTallyInputs("L1", ["L1"]);
    assert AnsweredBy(ExampleHistory, "L1") == [L1Answer, L1Answer];
    assert PassedBy(ExampleHistory, ["L1"]) == 3;
    ExampleCycles();
  }

  /** L2 answers none and misses the three Loads L1 missed. */
  lemma ExampleL2Row(db: map<string, CacheStats>)
    requires db == Tally(ExampleHistory, Hierarchy)
    ensures Get(db, "L2") == CacheStats(0, 3, 0)
  {
    TallyPerLevel(ExampleHistory, Hierarchy, 1);
    assert Hierarchy[1] == "L2" && Hierarchy[..2] == ["L1", "L2"];
    ExampleTallyInputs("L2", ["L1", "L2"]);
    assert AnsweredBy(ExampleHistory, "L2") == [];
    assert PassedBy(ExampleHistory, ["L1", "L2"]) == 3;
    ExampleCycles();
  }

  /** L3 answers none and misses the three Loads L1 missed. */
  lemma ExampleL3Row(db: map<string, CacheStats>)
    requires db == Tally(ExampleHistory, Hierarchy)
    ensures Get(db, "L3") == CacheStats(0, 3, 0)
  {
    TallyPerLevel(ExampleHistory, Hierarchy, 2);
    assert Hierarchy[2] == "L3" && Hierarchy[..3] == ["L1", "L2", "L3"];
    ExampleTallyInputs("L3", ["L1", "L2", "L3"]);
    assert AnsweredBy(ExampleHistory, "L3") == [];
    assert PassedBy(ExampleHistory, ["L1", "L2", "L3"]) == 3;
    ExampleCycles();
  }

  /** The memory answers the three Loads the caches missed, at 402 cycles in all. */
  lemma ExampleMemoryRow(db: map<string, CacheStats>)
    requires db == Tally(ExampleHistory, Hierarchy)
    ensures Get(db, "MainMemory") == CacheStats(3, 0, 402)
  {
    TallyPerLevel(ExampleHistory, Hierarchy, 3);
    assert Hierarchy[3] == "MainMemory" && Hierarchy[..4] == Hierarchy;
    ExampleTallyInputs("MainMemory", Hierarchy);
    assert AnsweredBy(ExampleHistory, "MainMemory") == [MemoryAnswer, MemoryAnswer, MemoryAnswer];
    assert PassedBy(ExampleHistory, Hierarchy) == 0;
    ExampleCycles();
  }

  /** The answers a level gave in the example, and the number of answers that
      none of the levels `upper` gave. */
  lemma ExampleTallyInputs(name: string, upper: seq<string>)
    ensures AnsweredBy(ExampleHistory, name) ==
              if name == "MainMemory" then [MemoryAnswer, MemoryAnswer, MemoryAnswer]
              else if name == "L1" then [L1Answer, L1Answer]
              else []
    ensures PassedBy(ExampleHistory, upper) ==
              (if "MainMemory" in upper then 0 else 3) + (if "L1" in upper then 0 else 2)
  {
    var h := ExampleHistory;
    var h1, h2, h3, h4 := h[..1], h[..2], h[..3], h[..4];
    assert h1 == [] + [h[0]] && h2 == h1 + [h[1]] && h3 == h2 + [h[2]];
    assert h4 == h3 + [h[3]] && h == h4 + [h[4]];
    ResultsSnoc([], h[0], name, upper);
    ResultsSnoc(h1, h[1], name, upper);
    ResultsSnoc(h2, h[2], name, upper);
    ResultsSnoc(h3, h[3], name, upper);
    ResultsSnoc(h4, h[4], name, upper);
  }

  /** The cycles of the memory's three answers and of L1's two. */
  lemma ExampleCycles()
    ensures Cycles([MemoryAnswer, MemoryAnswer, MemoryAnswer]) == 402
    ensures Cycles([L1Answer, L1Answer]) == 8 && Cycles([]) == 0
  {
    var m, l := MemoryAnswer, L1Answer;
    assert Cycles([m]) == 134 by {
      assert [m][..0] == [];
    }
    assert Cycles([m, m]) == 268 by {
      assert [m, m][..1] == [m];
    }
    assert Cycles([m, m, m]) == 402 by {
      assert [m, m, m][..2] == [m, m];
    }
    assert Cycles([l]) == 4 by {
      assert [l][..0] == [];
    }
    assert Cycles([l, l]) == 8 by {
      assert [l, l][..1] == [l];
    }
  }

  /** The report of the example's tallies, row by row. */
  lemma ExampleRowsOf(db: map<string, CacheStats>)
    requires Get(db, "L1") == CacheStats(2, 3, 8) && Get(db, "L2") == CacheStats(0, 3, 0)
    requires Get(db, "L3") == CacheStats(0, 3, 0) && Get(db, "MainMemory") == CacheStats(3, 0, 402)
    ensures Report(db, Hierarchy) == ExampleRows
  {
  }

  /** One more answer extends the answers of a level by that answer alone,
      and the count of those none of the levels `upper` gave by one unless
      one of them gave it. */
  lemma ResultsSnoc(h: seq<AccessResult>, r: AccessResult, name: string, upper: seq<string>)
    ensures AnsweredBy(h + [r], name) == AnsweredBy(h, name) + (if r.hitLevel == name then [r] else [])
    ensures PassedBy(h + [r], upper) == PassedBy(h, upper) + (if r.hitLevel in upper then 0 else 1)
  {
    assert (h + [r])[..|h|] == h;
  }

  /** The hits summed over the example's names, level by level. */
  lemma SumHitsOfHierarchy(db: map<string, CacheStats>)
    ensures SumHits(db, Hierarchy) ==
              Get(db, "L1").hits + Get(db, "L2").hits + Get(db, "L3").hits + Get(db, "MainMemory").hits
  {
    var n1 := Hierarchy[1..];
    var n2 := n1[1..];
    var n3 := n2[1..];
    assert n3 == ["MainMemory"] && n3[1..] == [];
    assert SumHits(db, n2) == Get(db, "L3").hits + SumHits(db, n3);
  }

  /** A second run through two levels: L1, one set of a single way, over
      L2, one set of two ways, both of 64-byte blocks under LRU, over the
      default memory. */
  const RefetchLevels: seq<LevelConfig> := [
    LevelConfig("L1", 1, 1, 64, Policies.LRUKind, 1),
    LevelConfig("L2", 1, 2, 64, Policies.LRUKind, 10)]

  /** The memory's answer in that run: 100 cycles plus the hit latencies 1
      and 10. */
  const RefetchMiss: AccessResult := AccessResult("MainMemory", 111)

  /** Loads of 0x0, 0x40 and 0x0 from L1. The first two find nothing and the
      memory answers; each is fetched through L2, which fills one of its two
      ways with it. The Load of 0x40 replaces the block of 0x0 in L1's only
      way, so the third Load misses in L1 and is answered by L2, after 1 + 10
      cycles. */
  method RefetchFromL2() returns (l1: Cache, history: seq<AccessResult>)
    ensures history == [RefetchMiss, RefetchMiss, AccessResult("L2", 11)]
  {
    l1 := BuildRefetch();
    ghost var views, states;
    history, views, states := RunLoads(l1, RefetchTrace);
    RefetchHistory(l1.shapes, l1.Logs(), l1.received, views, history, l1.bottom);
  }

  const RefetchTrace: seq<nat> := [0x0, 0x40, 0x0]

  /** L1 over L2 over the default memory, freshly built from the refetch
      run's levels. */
  method BuildRefetch() returns (l1: Cache)
    ensures l1.Valid() && l1.Journaled() && fresh(l1.Repr) && l1.received == []
    ensures l1.shapes == [LevelView("L1", 1, 1, 64, 1, []), LevelView("L2", 1, 2, 64, 10, [])]
    ensures l1.bottom == MainMemory("MainMemory", 100)
  {
    var memory := MainMemory(DEFAULT_MEMORY_NAME, DEFAULT_MEMORY_LATENCY);
    l1 := new Cache(RefetchLevels[0], RefetchLevels[1..], memory);
    assert [RefetchLevels[0]] + RefetchLevels[1..] == RefetchLevels;
    l1.ShapesMatch();
  }

  /** What a run of the refetch Loads records, read through its journals. */
  lemma RefetchHistory(shapes: seq<LevelView>, logs: seq<seq<LevelState>>, received: seq<Request>,
                       views: seq<seq<LevelView>>, history: seq<AccessResult>, mem: MainMemory)
    requires shapes == [LevelView("L1", 1, 1, 64, 1, []), LevelView("L2", 1, 2, 64, 10, [])]
    requires mem == MainMemory("MainMemory", 100)
    requires received == [] + Reads(RefetchTrace) && Journal(shapes, logs, received)
    requires |views| == 3 && |history| == 3 && Chained(shapes, logs, views, 0)
    requires forall i | 0 <= i < |RefetchTrace| ::
               && AllWellFormed(views[i]) && |views[i]| > 0
               && history[i] == Lookup(views[i], mem, RefetchTrace[i])
    ensures history == [RefetchMiss, RefetchMiss, AccessResult("L2", 11)]
  {
    assert received == [Read(0x0), Read(0x40), Read(0x0)];
    assert ChainedAt(shapes, logs, views[0], 0) && ChainedAt(shapes, logs, views[1], 1);
    assert ChainedAt(shapes, logs, views[2], 2);
    RefetchViews(shapes, logs, received);
    RefetchAnswers(mem);
  }

  /** The refetch run's hierarchy with `top` the lines of L1 and `below`
      those of L2. */
  function RefetchView(top: seq<seq<Line>>, below: seq<seq<Line>>): seq<LevelView>
  {
    [LevelView("L1", 1, 1, 64, 1, top), LevelView("L2", 1, 2, 64, 10, below)]
  }

  /** The hierarchies the three Loads of the refetch run meet, as the
      journals of a run of those Loads record them. */
  lemma RefetchViews(shapes: seq<LevelView>, logs: seq<seq<LevelState>>, reqs: seq<Request>)
    requires shapes == [LevelView("L1", 1, 1, 64, 1, []), LevelView("L2", 1, 2, 64, 10, [])]
    requires reqs == [Read(0x0), Read(0x40), Read(0x0)]
    requires Journal(shapes, logs, reqs)
    ensures forall n | n < 3 :: |ChainAt(logs, n)| == 2
    ensures CacheSim.Hierarchy(shapes, ChainAt(logs, 0)) == RefetchView([[Empty]], [[Empty, Empty]])
    ensures CacheSim.Hierarchy(shapes, ChainAt(logs, 1)) == RefetchView([[Clean(0)]], [[Clean(0), Empty]])
    ensures CacheSim.Hierarchy(shapes, ChainAt(logs, 2)) == RefetchView([[Clean(1)]], [[Clean(0), Clean(1)]])
  {
    var top, below := logs[0], logs[1];
    assert LevelJournal(shapes[0], top, reqs);
    RefetchTop(top, reqs);
    assert Journal(shapes[1..], logs[1..], top[3].sent);
    assert LevelJournal(shapes[1], below, top[3].sent);
    RefetchBelow(below, top[3].sent);
    assert logs[1..][1..] == [];
    assert ChainAt(logs, 0) == [top[0], below[0]];
    assert ChainAt(logs, 1) == [top[1], below[1]];
    assert ChainAt(logs, 2) == [top[2], below[2]];
  }

  /** Lookup on the hierarchies of the refetch run: nothing holds 0x0 or
      0x40 at first; after both were fetched, L1 holds only the block of
      0x40 and L2 both. */
  lemma RefetchAnswers(mem: MainMemory)
    requires mem == MainMemory("MainMemory", 100)
    ensures AllWellFormed(RefetchView([[Empty]], [[Empty, Empty]]))
    ensures AllWellFormed(RefetchView([[Clean(0)]], [[Clean(0), Empty]]))
    ensures AllWellFormed(RefetchView([[Clean(1)]], [[Clean(0), Clean(1)]]))
    ensures Lookup(RefetchView([[Empty]], [[Empty, Empty]]), mem, 0x0) == RefetchMiss
    ensures Lookup(RefetchView([[Clean(0)]], [[Clean(0), Empty]]), mem, 0x40) == RefetchMiss
    ensures Lookup(RefetchView([[Clean(1)]], [[Clean(0), Clean(1)]]), mem, 0x0) == AccessResult("L2", 11)
  {
    WayOfExact([Empty], 0, 1);
    WayOfExact([Empty, Empty], 0, 2);
    WayOfExact([Clean(0)], 1, 1);
    WayOfExact([Clean(0), Empty], 1, 2);
    WayOfExact([Clean(1)], 0, 1);
    WayOfExact([Clean(0), Clean(1)], 0, 0);
    var first, second := RefetchView([[Empty]], [[Empty, Empty]]), RefetchView([[Clean(0)]], [[Clean(0), Empty]]);
    assert first[1..][1..] == [] && second[1..][1..] == [];
    assert !Resident(first[0], 0x0) && !Resident(first[1], 0x0);
    assert Lookup(first[1..][1..], mem, 0x0) == AccessResult("MainMemory", 100);
    assert Lookup(first[1..], mem, 0x0) == AccessResult("MainMemory", 110);
    assert SetIndex(0x40, 1, 64) == 0 && Tag(0x40, 1, 64) == 1;
    assert !Resident(second[0], 0x40) && !Resident(second[1], 0x40);
    assert Lookup(second[1..][1..], mem, 0x40) == AccessResult("MainMemory", 100);
    assert Lookup(second[1..], mem, 0x40) == AccessResult("MainMemory", 110);
  }

  /** L1 through the refetch run: each Load misses; the second replaces the
      clean block of 0x0, writing nothing back. */
  lemma RefetchTop(log: seq<LevelState>, reqs: seq<Request>)
    requires reqs == [Read(0x0), Read(0x40), Read(0x0)]
    requires LevelJournal(LevelView("L1", 1, 1, 64, 1, []), log, reqs)
    ensures log[0].lines == [[Empty]] && log[1].lines == [[Clean(0)]] && log[2].lines == [[Clean(1)]]
    ensures log[0].sent == [] && log[1].sent == [Read(0x0)] && log[2].sent == [Read(0x0), Read(0x40)]
    ensures log[3].sent == [Read(0x0), Read(0x40), Read(0x0)]
  {
    assert EmptyLines(1, 1) == [[Empty]] by {
      assert EmptyLines(1, 1)[0] == [Empty];
    }
    assert AccessStep(1, 64, log[0], log[1], 0x0, false);
    assert AccessStep(1, 64, log[1], log[2], 0x40, false);
    assert AccessStep(1, 64, log[2], log[3], 0x0, false);
    RefetchTopSteps(log[0], log[1], log[2], log[3]);
  }

  /** The three steps of L1 in the refetch run, from an empty level. */
  lemma RefetchTopSteps(s0: LevelState, s1: LevelState, s2: LevelState, s3: LevelState)
    requires s0.lines == [[Empty]] && s0.sent == []
    requires AccessStep(1, 64, s0, s1, 0x0, false)
    requires AccessStep(1, 64, s1, s2, 0x40, false)
    requires AccessStep(1, 64, s2, s3, 0x0, false)
    ensures s1.lines == [[Clean(0)]] && s2.lines == [[Clean(1)]]
    ensures s1.sent == [Read(0x0)] && s2.sent == [Read(0x0), Read(0x40)]
    ensures s3.sent == [Read(0x0), Read(0x40), Read(0x0)]
  {
    TinyFreeMiss(s0, s1, 0x0, [Empty], 0, 0);
    MissTakesFreeWay(1, 64, s0, s1, 0x0, false);
    assert [Empty][0 := Clean(0)] == [Clean(0)];
    OneWayReplace(s1, s2, 0x40, 0, 1);
    OneWayReplace(s2, s3, 0x0, 1, 0);
  }

  /** L2 through the refetch run: the first two Loads it receives fill its
      two ways in turn. */
  lemma RefetchBelow(log: seq<LevelState>, reqs: seq<Request>)
    requires reqs == [Read(0x0), Read(0x40), Read(0x0)]
    requires LevelJournal(LevelView("L2", 1, 2, 64, 10, []), log, reqs)
    ensures log[0].lines == [[Empty, Empty]] && log[1].lines == [[Clean(0), Empty]]
    ensures log[2].lines == [[Clean(0), Clean(1)]]
  {
    assert EmptyLines(1, 2) == [[Empty, Empty]] by {
      assert EmptyLines(1, 2)[0] == [Empty, Empty];
    }
    assert AccessStep(1, 64, log[0], log[1], 0x0, false);
    TinyFreeMiss(log[0], log[1], 0x0, [Empty, Empty], 0, 0);
    assert [Empty, Empty][0 := Clean(0)] == [Clean(0), Empty];
    assert AccessStep(1, 64, log[1], log[2], 0x40, false);
    TinyFreeMiss(log[1], log[2], 0x40, [Clean(0), Empty], 1, 1);
    assert [Clean(0), Empty][1 := Clean(1)] == [Clean(0), Clean(1)];
  }

  /** A Load missing in a set of a single way holding a clean block replaces
      that block and writes nothing back: the Load of the block alone is sent
      down. */
  lemma OneWayReplace(st: LevelState, st': LevelState, addr: nat, prev: nat, tag: nat)
    requires AccessStep(1, 64, st, st', addr, false)
    requires st.lines == [[Clean(prev)]] && Tag(addr, 1, 64) == tag && tag != prev
    ensures st'.lines == [[Clean(tag)]] && st'.sent == st.sent + [Read(addr)]
  {
    var row := [Clean(prev)];
    assert SetIndex(addr, 1, 64) == 0;
    assert !Holds(row, tag) by {
      WayOfExact(row, tag, 1);
    }
    var w: nat :| FillStep(st.policy, st'.policy, row, st'.lines[0], 0, tag, w, false)
                  && st'.sent == st.sent + [Read(addr)] + WriteBack(row, w, 0, 1, 64);
    assert w == 0 && WriteBack(row, w, 0, 1, 64) == [];
    assert st'.lines[0] == row[0 := Clean(tag)] == [Clean(tag)];
    assert st'.lines == [st'.lines[0]];
  }
}
