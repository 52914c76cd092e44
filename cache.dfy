/** One cache level: a `sets x ways` grid of lines, a replacement policy, hit,
    miss and eviction counters, and the next level (another cache or the
    terminal memory), which it owns. Loads and Stores look the address up in
    one set; a miss fetches the block from the next level (a Load, for Stores
    too: write-allocate), adds this level's hit latency to the answer and fills
    a line, writing a dirty victim back to the next level (write-back). */
module CacheSim {
  import opened Types
  import opened Levels
  import Policies

  /** The description of one level: its name, geometry, policy and hit latency. */
  datatype LevelConfig = LevelConfig(name: string, sets: nat, ways: nat, blockSize: nat,
                                     policy: Policies.PolicyKind, hitLatency: nat)

  predicate ValidConfig(c: LevelConfig)
  {
    c.sets > 0 && c.ways > 0 && c.blockSize > 0
  }

  /** The view of a freshly built hierarchy: the configured levels, all lines invalid. */
  function ConfigViews(configs: seq<LevelConfig>): (vs: seq<LevelView>)
    ensures |vs| == |configs|
    ensures AllEmpty(vs)
    ensures (forall i | 0 <= i < |configs| :: ValidConfig(configs[i])) ==> AllWellFormed(vs)
    ensures forall i | 0 <= i < |configs| ::
              vs[i].name == configs[i].name && vs[i].hitLatency == configs[i].hitLatency &&
              vs[i].sets == configs[i].sets && vs[i].ways == configs[i].ways &&
              vs[i].blockSize == configs[i].blockSize
  {
    if configs == [] then []
    else
      var c := configs[0];
      [LevelView(c.name, c.sets, c.ways, c.blockSize, c.hitLatency, EmptyLines(c.sets, c.ways))]
        + ConfigViews(configs[1..])
  }

  /** The way a fill of a set takes: the lowest invalid way while there is
      one, otherwise the victim the policy names. */
  ghost predicate FillsWay(p: Policies.PolicyState, row: seq<Line>, s: nat, w: nat)
  {
    && w < |row|
    && if Full(row) then Policies.IsVictim(p, s, |row|, w) else w == FirstInvalid(row)
  }

  /** A fill of `tag` into way w of set s: the policy chose w, the line becomes
      valid with the tag (dirty for a Store), and the policy records the fill. */
  ghost predicate FillStep(p: Policies.PolicyState, p': Policies.PolicyState,
                           row: seq<Line>, row': seq<Line>, s: nat, tag: nat, w: nat, dirty: bool)
  {
    && FillsWay(p, row, s, w)
    && row' == row[w := Line(true, dirty, tag)]
    && Policies.InRange(p, s, w, |row|)
    && p' == Policies.AfterFill(p, s, w, |row|)
  }

  /** The write-back a fill of way w sends down: a Store of the block address
      of the line it replaces, when that line is valid and dirty. */
  function WriteBack(row: seq<Line>, w: nat, s: nat, sets: nat, blockSize: nat): seq<Request>
    requires w < |row|
  {
    if row[w].valid && row[w].dirty then [Write(BlockAddress(row[w].tag, s, sets, blockSize))] else []
  }

  /** While a set is not full, the FIFO pointer of that set is its number of
      valid lines (the lowest invalid way), because every fill so far took the
      lowest invalid way and advanced the pointer by one. */
  ghost predicate FifoTracksFills(p: Policies.PolicyState, lines: seq<seq<Line>>)
  {
    p.FIFOState? ==>
      forall s | 0 <= s < |lines| && s < |p.pointers| :: !Full(lines[s]) ==> p.pointers[s] == FirstInvalid(lines[s])
  }

  /** A fill of the lowest invalid way (or of any way of a full set) keeps the
      FIFO pointers in step with the fills; the fill that makes a set full
      brings its pointer back to way 0, the oldest fill. */
  lemma {:induction false} FifoAfterFill(p: Policies.PolicyState, lines: seq<seq<Line>>,
                                         s: nat, w: nat, tag: nat, ways: nat)
    requires FifoTracksFills(p, lines) && s < |lines| && |lines[s]| == ways && w < ways
    requires ValidPrefix(lines[s]) && (Full(lines[s]) || w == FirstInvalid(lines[s]))
    requires Policies.InRange(p, s, w, ways)
    ensures FifoTracksFills(Policies.AfterFill(p, s, w, ways), lines[s := FillRow(lines[s], w, tag)])
    ensures p.FIFOState? && !Full(lines[s]) && Full(FillRow(lines[s], w, tag)) ==>
              Policies.AfterFill(p, s, w, ways).pointers[s] == 0
  {
    if p.FIFOState? {
      var row' := FillRow(lines[s], w, tag);
      FifoSetAfterFill(p.pointers[s], lines[s], w, tag);
      var lines' := lines[s := row'];
      var ptrs' := Policies.AfterFill(p, s, w, ways).pointers;
      assert ptrs' == p.pointers[s := (p.pointers[s] + 1) % ways];
      forall i | 0 <= i < |lines'| && i < |ptrs'| && !Full(lines'[i])
        ensures ptrs'[i] == FirstInvalid(lines'[i])
      {
        if i != s {
          assert lines'[i] == lines[i];
        }
      }
    }
  }

  /** One set of FifoAfterFill: the pointer advanced by one (modulo the ways)
      still names the lowest invalid way, or way 0 once the set is full. */
  lemma FifoSetAfterFill(ptr: nat, row: seq<Line>, w: nat, tag: nat)
    requires w < |row| && ValidPrefix(row) && (Full(row) || w == FirstInvalid(row))
    requires !Full(row) ==> ptr == FirstInvalid(row)
    ensures !Full(FillRow(row, w, tag)) ==> (ptr + 1) % |row| == FirstInvalid(FillRow(row, w, tag))
    ensures !Full(row) && Full(FillRow(row, w, tag)) ==> (ptr + 1) % |row| == 0
  {
    var row' := FillRow(row, w, tag);
    if Full(row) {
      assert NoLineInvalidated(row, row');
      FullStaysFull(row, row');
    } else {
      FillFirstInvalid(row, tag);
      var n := |row|;
      if ptr + 1 < n {
        DivModUnique(ptr + 1, n, 0, ptr + 1);
      } else {
        DivModUnique(ptr + 1, n, 1, 0);
      }
    }
  }

  /** Every set keeps its shape and stays well formed when one set is replaced
      by a well-formed set of the same number of ways. */
  lemma ReplaceRowKeepsSets(lines: seq<seq<Line>>, s: nat, row: seq<Line>, ways: nat, lines': seq<seq<Line>>)
    requires s < |lines| && |row| == ways && WellFormedSet(row) && lines' == lines[s := row]
    requires forall i | 0 <= i < |lines| :: |lines[i]| == ways && WellFormedSet(lines[i])
    ensures forall i | 0 <= i < |lines'| :: |lines'[i]| == ways && WellFormedSet(lines'[i])
  {
  }

  /** The sets of a fresh level are well formed and empty. */
  lemma EmptyLinesValid(sets: nat, ways: nat)
    requires ways > 0
    ensures forall s | 0 <= s < sets ::
              |EmptyLines(sets, ways)[s]| == ways && WellFormedSet(EmptyLines(sets, ways)[s])
              && FirstInvalid(EmptyLines(sets, ways)[s]) == 0
  {
    forall s | 0 <= s < sets
      ensures FirstInvalid(EmptyLines(sets, ways)[s]) == 0
    {
      assert !EmptyLines(sets, ways)[s][0].valid;
    }
  }

  /** FIFO pointers that all start at way 0 track sets that are all empty. */
  lemma FreshFifoTracks(p: Policies.PolicyState, lines: seq<seq<Line>>)
    requires forall s | 0 <= s < |lines| :: FirstInvalid(lines[s]) == 0
    requires p.FIFOState? ==> forall s | 0 <= s < |p.pointers| :: p.pointers[s] == 0
    ensures FifoTracksFills(p, lines)
  {
  }

  /** What an access changes in one level: its lines, its policy, its counters
      and the requests it has sent to the next level. */
  datatype LevelState = LevelState(lines: seq<seq<Line>>, policy: Policies.PolicyState,
                                   hits: nat, misses: nat, evictions: nat, sent: seq<Request>)

  /** A fill of `tag` into set s, from st to st': some way w is chosen as
      FillsWay says, a dirty line it replaces is written back, and only set s,
      the policy, the evictions and the requests sent change. */
  ghost predicate FillOf(sets: nat, blockSize: nat, st: LevelState, st': LevelState,
                         s: nat, tag: nat, dirty: bool)
  {
    && s < |st.lines| && |st'.lines| == |st.lines| && st'.lines == st.lines[s := st'.lines[s]]
    && st'.hits == st.hits && st'.misses == st.misses
    && exists w: nat ::
         && FillStep(st.policy, st'.policy, st.lines[s], st'.lines[s], s, tag, w, dirty)
         && st'.sent == st.sent + WriteBack(st.lines[s], w, s, sets, blockSize)
         && st'.evictions == st.evictions + |WriteBack(st.lines[s], w, s, sets, blockSize)|
  }

  /** One Load (write false) or Store (write true) of `addr`, from st to st':
      on a hit the line is found, counted and (for a Store) made dirty and the
      policy records the hit; on a miss the block is fetched with a Load from
      the next level and filled (dirty for a Store). */
  ghost predicate AccessStep(sets: nat, blockSize: nat, st: LevelState, st': LevelState,
                             addr: nat, write: bool)
  {
    && sets > 0 && blockSize > 0 && |st.lines| == sets
    && var s, t := SetIndex(addr, sets, blockSize), Tag(addr, sets, blockSize);
       var row := st.lines[s];
       if Holds(row, t) then
         var w := WayOf(row, t);
         && Policies.InRange(st.policy, s, w, |row|)
         && st' == st.(lines := if write then st.lines[s := row[w := row[w].(dirty := true)]] else st.lines,
                       policy := Policies.AfterHit(st.policy, s, w, |row|),
                       hits := st.hits + 1)
       else
         FillOf(sets, blockSize, st.(misses := st.misses + 1, sent := st.sent + [Read(addr)]),
                st', s, t, write)
  }

  /** A clean fill followed by marking the filled line dirty is a dirty fill:
      after the fill the tag is found in exactly the way that was filled. */
  lemma FillThenDirty(sets: nat, blockSize: nat, st: LevelState, st': LevelState, s: nat, tag: nat)
    requires FillOf(sets, blockSize, st, st', s, tag, false)
    requires WellFormedSet(st.lines[s]) && !Holds(st.lines[s], tag)
    ensures WayOf(st'.lines[s], tag) < |st'.lines[s]|
    ensures var k := WayOf(st'.lines[s], tag);
            FillOf(sets, blockSize, st,
                   st'.(lines := st'.lines[s := st'.lines[s][k := st'.lines[s][k].(dirty := true)]]),
                   s, tag, true)
  {
    var row := st.lines[s];
    var w: nat :| && FillStep(st.policy, st'.policy, row, st'.lines[s], s, tag, w, false)
             && st'.sent == st.sent + WriteBack(row, w, s, sets, blockSize)
             && st'.evictions == st.evictions + |WriteBack(row, w, s, sets, blockSize)|;
    FillKeepsWellFormed(row, w, tag);
    var row' := st'.lines[s][w := st'.lines[s][w].(dirty := true)];
    assert row' == row[w := Line(true, true, tag)];
    var st'' := st'.(lines := st'.lines[s := row']);
    assert FillStep(st.policy, st''.policy, row, st''.lines[s], s, tag, w, true);
  }

  /** Marking a line dirty leaves the FIFO pointers tracking the fills. */
  lemma DirtyKeepsFifo(p: Policies.PolicyState, lines: seq<seq<Line>>, s: nat, w: nat)
    requires FifoTracksFills(p, lines) && s < |lines| && w < |lines[s]|
    ensures FifoTracksFills(p, lines[s := lines[s][w := lines[s][w].(dirty := true)]])
  {
    var row := lines[s];
    var row' := row[w := row[w].(dirty := true)];
    FirstInvalidExact(row', FirstInvalid(row));
  }

  /** After an access the block of `addr` is resident in its set, and no
      other set has changed. */
  lemma AccessLeavesResident(sets: nat, blockSize: nat, st: LevelState, st': LevelState, addr: nat, write: bool)
    requires AccessStep(sets, blockSize, st, st', addr, write)
    ensures |st'.lines| == |st.lines|
    ensures Holds(st'.lines[SetIndex(addr, sets, blockSize)], Tag(addr, sets, blockSize))
    ensures forall i | 0 <= i < |st.lines| && i != SetIndex(addr, sets, blockSize) :: st'.lines[i] == st.lines[i]
  {
    var s, t := SetIndex(addr, sets, blockSize), Tag(addr, sets, blockSize);
    var row, row' := st.lines[s], st'.lines[s];
    if Holds(row, t) {
      var w := WayOf(row, t);
      assert row'[w].valid && row'[w].tag == t;
    } else {
      var w: nat :| FillStep(st.policy, st'.policy, row, row', s, t, w, write);
      assert row'[w].valid && row'[w].tag == t;
    }
  }

  /** Each access counts exactly one outcome: a hit when the block was
      resident in its set, a miss otherwise. */
  lemma AccessCountsOnce(sets: nat, blockSize: nat, st: LevelState, st': LevelState, addr: nat, write: bool)
    requires AccessStep(sets, blockSize, st, st', addr, write)
    ensures var hit := Holds(st.lines[SetIndex(addr, sets, blockSize)], Tag(addr, sets, blockSize));
            && st'.hits == st.hits + (if hit then 1 else 0)
            && st'.misses == st.misses + (if hit then 0 else 1)
  {
  }

  /** An access keeps the set it touches well formed (no tag twice, valid
      lines first) and invalidates none of its lines. */
  lemma AccessKeepsSetWellFormed(sets: nat, blockSize: nat, st: LevelState, st': LevelState, addr: nat, write: bool)
    requires AccessStep(sets, blockSize, st, st', addr, write)
    requires WellFormedSet(st.lines[SetIndex(addr, sets, blockSize)])
    ensures var s := SetIndex(addr, sets, blockSize);
            WellFormedSet(st'.lines[s]) && NoLineInvalidated(st.lines[s], st'.lines[s])
  {
    var s, t := SetIndex(addr, sets, blockSize), Tag(addr, sets, blockSize);
    var row, row' := st.lines[s], st'.lines[s];
    if Holds(row, t) {
      var w := WayOf(row, t);
      if write {
        DirtyKeepsWellFormed(row, w);
      }
    } else {
      var w: nat :| FillStep(st.policy, st'.policy, row, row', s, t, w, write);
      FillKeepsWellFormed(row, w, t);
      if write {
        var filled := FillRow(row, w, t);
        assert row' == filled[w := filled[w].(dirty := true)];
        DirtyKeepsWellFormed(filled, w);
      }
    }
  }

  /** After a Store, hit or miss (write-allocate), the line holding the block
      is valid and dirty. */
  lemma StoreLeavesDirty(sets: nat, blockSize: nat, st: LevelState, st': LevelState, addr: nat)
    requires AccessStep(sets, blockSize, st, st', addr, true)
    ensures var s, t := SetIndex(addr, sets, blockSize), Tag(addr, sets, blockSize);
            var k := WayOf(st'.lines[s], t);
            k < |st'.lines[s]| && st'.lines[s][k].valid && st'.lines[s][k].dirty
  {
    var s, t := SetIndex(addr, sets, blockSize), Tag(addr, sets, blockSize);
    var row, row' := st.lines[s], st'.lines[s];
    if Holds(row, t) {
      var w := WayOf(row, t);
      WayOfExact(row', t, w);
    } else {
      var w: nat :| FillStep(st.policy, st'.policy, row, row', s, t, w, true);
      HoldsIff(row, t);
      WayOfExact(row', t, w);
    }
  }

  /** A Load that hits changes no line; the hit is counted and the policy
      records it, and nothing is sent to the next level. */
  lemma LoadHitKeepsLines(sets: nat, blockSize: nat, st: LevelState, st': LevelState, addr: nat)
    requires AccessStep(sets, blockSize, st, st', addr, false)
    requires Holds(st.lines[SetIndex(addr, sets, blockSize)], Tag(addr, sets, blockSize))
    ensures st'.lines == st.lines && st'.sent == st.sent
    ensures st'.hits == st.hits + 1 && st'.misses == st.misses && st'.evictions == st.evictions
    ensures var s := SetIndex(addr, sets, blockSize);
            var row := st.lines[s];
            var w := WayOf(row, Tag(addr, sets, blockSize));
            && Policies.InRange(st.policy, s, w, |row|)
            && st'.policy == Policies.AfterHit(st.policy, s, w, |row|)
  {
  }

  /** A miss on a set with an invalid way fills the lowest invalid way, so
      nothing is evicted or written back: the only request sent down is the
      Load of the block. */
  lemma MissTakesFreeWay(sets: nat, blockSize: nat, st: LevelState, st': LevelState, addr: nat, write: bool)
    requires AccessStep(sets, blockSize, st, st', addr, write)
    requires !Holds(st.lines[SetIndex(addr, sets, blockSize)], Tag(addr, sets, blockSize))
    requires !Full(st.lines[SetIndex(addr, sets, blockSize)])
    ensures var s, t := SetIndex(addr, sets, blockSize), Tag(addr, sets, blockSize);
            var row := st.lines[s];
            var w := FirstInvalid(row);
            && st'.lines == st.lines[s := row[w := Line(true, write, t)]]
            && Policies.InRange(st.policy, s, w, |row|)
            && st'.policy == Policies.AfterFill(st.policy, s, w, |row|)
    ensures st'.hits == st.hits && st'.misses == st.misses + 1
    ensures st'.sent == st.sent + [Read(addr)] && st'.evictions == st.evictions
  {
    var s, t := SetIndex(addr, sets, blockSize), Tag(addr, sets, blockSize);
    var row := st.lines[s];
    var w: nat :| FillStep(st.policy, st'.policy, row, st'.lines[s], s, t, w, write)
                  && st'.sent == st.sent + [Read(addr)] + WriteBack(row, w, s, sets, blockSize);
    assert WriteBack(row, w, s, sets, blockSize) == [];
  }

  /** Under LRU, a miss on a full set (whose counter still fits in 64 bits)
      replaces the way with the oldest stamp, lowest index first. */
  lemma LruMissEvictsOldest(sets: nat, blockSize: nat, st: LevelState, st': LevelState, addr: nat, write: bool)
    requires AccessStep(sets, blockSize, st, st', addr, write)
    requires !Holds(st.lines[SetIndex(addr, sets, blockSize)], Tag(addr, sets, blockSize))
    requires Full(st.lines[SetIndex(addr, sets, blockSize)])
    requires st.policy.LRUState? && SetIndex(addr, sets, blockSize) < |st.policy.counters|
    requires st.policy.counters[SetIndex(addr, sets, blockSize)] <= UINT64_MAX
    ensures var s, t := SetIndex(addr, sets, blockSize), Tag(addr, sets, blockSize);
            var row := st.lines[s];
            && s < |st.policy.stamps| && |st.policy.stamps[s]| > 0
            && var w := Policies.MinIndex(st.policy.stamps[s]);
               && w < |row|
               && st'.lines == st.lines[s := row[w := Line(true, write, t)]]
               && st'.policy == Policies.Touch(st.policy.stamps, st.policy.counters, s, w)
               && st'.sent == st.sent + [Read(addr)] + WriteBack(row, w, s, sets, blockSize)
  {
  }

  // ---------------------------------------------------------------------------
  // What a level can hold and send, given what it was asked for

  /** Every valid line of `lines` holds the block of an address in `addrs`. */
  ghost predicate LinesRequested(lines: seq<seq<Line>>, sets: nat, blockSize: nat, addrs: set<nat>)
    requires blockSize > 0
  {
    forall s, w | 0 <= s < |lines| && 0 <= w < |lines[s]| && lines[s][w].valid ::
      BlockAddress(lines[s][w].tag, s, sets, blockSize) in Aligned(addrs, blockSize)
  }

  /** Every request of `sent` is for an address of `addrs` or for the start of
      one of their blocks. */
  ghost predicate SentRequested(sent: seq<Request>, blockSize: nat, addrs: set<nat>)
    requires blockSize > 0
  {
    forall i | 0 <= i < |sent| :: sent[i].addr in addrs + Aligned(addrs, blockSize)
  }

  /** Writing one line keeps every valid line requested when the new line,
      if valid, is. */
  lemma WriteKeepsRequested(lines: seq<seq<Line>>, sets: nat, blockSize: nat, addrs: set<nat>,
                            s: nat, w: nat, line: Line)
    requires blockSize > 0 && LinesRequested(lines, sets, blockSize, addrs)
    requires s < |lines| && w < |lines[s]|
    requires line.valid ==> BlockAddress(line.tag, s, sets, blockSize) in Aligned(addrs, blockSize)
    ensures LinesRequested(lines[s := lines[s][w := line]], sets, blockSize, addrs)
  {
  }

  lemma SentSnoc(sent: seq<Request>, r: Request, blockSize: nat, addrs: set<nat>)
    requires blockSize > 0 && SentRequested(sent, blockSize, addrs)
    requires r.addr in addrs + Aligned(addrs, blockSize)
    ensures SentRequested(sent + [r], blockSize, addrs)
  {
  }

  /** More requests received keep the lines and the requests sent covered. */
  lemma RequestedMono(lines: seq<seq<Line>>, sent: seq<Request>, sets: nat, blockSize: nat,
                      addrs: set<nat>, more: set<nat>)
    requires blockSize > 0 && addrs <= more
    requires LinesRequested(lines, sets, blockSize, addrs) && SentRequested(sent, blockSize, addrs)
    ensures LinesRequested(lines, sets, blockSize, more) && SentRequested(sent, blockSize, more)
  {
    AlignedMono(addrs, more, blockSize);
  }

  /** What a level sent is the set of addresses its next level received. */
  lemma SentWithin(sent: seq<Request>, blockSize: nat, addrs: set<nat>)
    requires blockSize > 0 && SentRequested(sent, blockSize, addrs)
    ensures Addrs(sent) <= addrs + Aligned(addrs, blockSize)
  {
    AddrsWithin(sent, addrs + Aligned(addrs, blockSize));
  }

  /** A level as built: every line invalid, every counter zero, nothing
      sent, and a fresh policy of some kind. */
  ghost predicate Initial(st: LevelState, sets: nat, ways: nat)
  {
    && st.lines == EmptyLines(sets, ways)
    && st.policy == Policies.InitialState(Policies.KindOf(st.policy), sets, ways)
    && st.hits == 0 && st.misses == 0 && st.evictions == 0 && st.sent == []
  }

  /** The journal of a level of the given shape that received `reqs`: its
      state as built, then its state after each request, each request taking
      one AccessStep. */
  ghost predicate LevelJournal(shape: LevelView, log: seq<LevelState>, reqs: seq<Request>)
  {
    && |log| == |reqs| + 1 && Initial(log[0], shape.sets, shape.ways)
    && forall j | 0 <= j < |reqs| ::
         AccessStep(shape.sets, shape.blockSize, log[j], log[j + 1], reqs[j].addr, reqs[j].Write?)
  }

  /** A journal continued by the state one more request's AccessStep reached
      is the journal of the requests so far and that one. */
  lemma LevelJournalSnoc(shape: LevelView, log: seq<LevelState>, reqs: seq<Request>, req: Request, st: LevelState)
    requires LevelJournal(shape, log, reqs)
    requires AccessStep(shape.sets, shape.blockSize, log[|reqs|], st, req.addr, req.Write?)
    ensures LevelJournal(shape, log + [st], reqs + [req])
  {
    var log', reqs' := log + [st], reqs + [req];
    forall j | 0 <= j < |reqs'|
      ensures AccessStep(shape.sets, shape.blockSize, log'[j], log'[j + 1], reqs'[j].addr, reqs'[j].Write?)
    {
      if j < |reqs| {
        assert log'[j] == log[j] && log'[j + 1] == log[j + 1] && reqs'[j] == reqs[j];
      }
    }
  }

  /** The journals of a chain of levels of the given shapes, top first, whose
      top level received `reqs`: every level below received exactly the
      requests the level above it sent. */
  ghost predicate Journal(shapes: seq<LevelView>, logs: seq<seq<LevelState>>, reqs: seq<Request>)
    decreases |shapes|
  {
    && |logs| == |shapes|
    && (|shapes| > 0 ==>
          && LevelJournal(shapes[0], logs[0], reqs)
          && Journal(shapes[1..], logs[1..], logs[0][|reqs|].sent))
  }

  /** The states of a chain of levels once its top level has received n
      requests: the top level's n-th state, then each lower level's state
      after the requests the level above had sent by then. */
  ghost function ChainAt(logs: seq<seq<LevelState>>, n: nat): (chain: seq<LevelState>)
    ensures |chain| <= |logs|
    decreases |logs|
  {
    if logs == [] || n >= |logs[0]| then [] else [logs[0][n]] + ChainAt(logs[1..], |logs[0][n].sent|)
  }

  /** A chain of levels of the given shapes holding the lines of `chain`. */
  function Hierarchy(shapes: seq<LevelView>, chain: seq<LevelState>): (vs: seq<LevelView>)
    ensures |vs| == if |shapes| < |chain| then |shapes| else |chain|
    ensures forall k | 0 <= k < |vs| :: vs[k] == shapes[k].(lines := chain[k].lines)
  {
    if shapes == [] || chain == [] then [] else [shapes[0].(lines := chain[0].lines)] + Hierarchy(shapes[1..], chain[1..])
  }

  /** Every journal of `logs'` continues the one of `logs` at the same level. */
  ghost predicate Extends(logs: seq<seq<LevelState>>, logs': seq<seq<LevelState>>)
  {
    |logs| == |logs'| && forall k | 0 <= k < |logs| :: logs[k] <= logs'[k]
  }

  lemma ExtendsRefl(logs: seq<seq<LevelState>>)
    ensures Extends(logs, logs)
  {
  }

  lemma ExtendsTrans(logs: seq<seq<LevelState>>, logs': seq<seq<LevelState>>, logs'': seq<seq<LevelState>>)
    requires Extends(logs, logs') && Extends(logs', logs'')
    ensures Extends(logs, logs'')
  {
    forall k | 0 <= k < |logs|
      ensures logs[k] <= logs''[k]
    {
      assert logs''[k][..|logs[k]|] == logs''[k][..|logs'[k]|][..|logs[k]|];
    }
  }

  lemma ExtendsCons(log: seq<LevelState>, log': seq<LevelState>, logs: seq<seq<LevelState>>, logs': seq<seq<LevelState>>)
    requires log <= log' && Extends(logs, logs')
    ensures Extends([log] + logs, [log'] + logs')
  {
    assert forall k | 1 <= k < |logs| + 1 :: ([log] + logs)[k] == logs[k - 1] && ([log'] + logs')[k] == logs'[k - 1];
  }

  /** Continuing every journal leaves the states of the chain at any point
      already journaled by every level unchanged. */
  lemma {:induction false} ChainAtExtends(logs: seq<seq<LevelState>>, logs': seq<seq<LevelState>>, n: nat)
    requires Extends(logs, logs') && |ChainAt(logs, n)| == |logs|
    ensures ChainAt(logs', n) == ChainAt(logs, n)
    decreases |logs|
  {
    if logs != [] {
      assert logs'[0][n] == logs[0][n];
      assert Extends(logs[1..], logs'[1..]) by {
        assert forall k | 0 <= k < |logs| - 1 :: logs[1..][k] == logs[k + 1] && logs'[1..][k] == logs'[k + 1];
      }
      ChainAtExtends(logs[1..], logs'[1..], |logs[0][n].sent|);
    }
  }

  datatype Next = Memory(mem: MainMemory) | Lower(cache: Cache)

  class Cache {
    const name: string
    const numSets: nat
    const numWays: nat
    const blockSize: nat
    const hitLatency: nat
    const next: Next
    const sets: array2<Line>
    const policy: Policies.Policy

    var hits: nat
    var misses: nat
    var evictions: nat

    /** The contents of `sets`, set by set. */
    ghost var Lines: seq<seq<Line>>
    /** Every request this level has served, in order. */
    ghost var received: seq<Request>
    /** Every request this level has sent to the next level, in order. */
    ghost var sent: seq<Request>
    /** The objects this level owns besides itself: its grid, its policy and
        the levels below. */
    ghost const Repr: set<object>
    /** This level's own objects: its grid and its policy. */
    ghost const Own: set<object>
    /** The terminal memory at the end of the chain. */
    ghost const bottom: MainMemory
    /** The names of this level, the levels below and the memory, top first. */
    ghost const names: seq<string>
    /** This level and every level below it without their lines, top first. */
    ghost const shapes: seq<LevelView>
    /** This level's state as built, then after each request it received. */
    ghost var steps: seq<LevelState>

    ghost predicate Valid()
      reads `Lines, `sent, `received, Repr
      decreases Repr, 1
    {
      && this !in Repr && Repr == Own + Below() && Own !! Below()
      && LocalValid() && ChainValid() && Traffic()
    }

    /** Every valid line holds the block of a request this level received,
        and every request it sent down is one it received or the write-back
        of such a block. */
    ghost predicate Traffic()
      reads `Lines, `sent, `received
    {
      && blockSize > 0
      && LinesRequested(Lines, numSets, blockSize, Addrs(received))
      && SentRequested(sent, blockSize, Addrs(received))
    }

    /** This level without its lines. */
    ghost function Shape(): LevelView
    {
      LevelView(name, numSets, numWays, blockSize, hitLatency, [])
    }

    /** The objects of the levels below this one. */
    ghost function Below(): set<object>
    {
      match next
      case Memory(_) => {}
      case Lower(c) => {c} + c.Repr
    }

    /** The invariant of this level's own state: geometry, the policy, the
        lines mirrored by `Lines`, and every set well formed. */
    ghost predicate LocalValid()
      reads `Lines, Own
    {
      GridValid() && FifoTracksFills(Policies.StateOf(policy), Lines)
    }

    /** This level's own invariant but for the FIFO pointers. */
    ghost predicate GridValid()
      reads `Lines, Own
    {
      && sets in Own && Policies.Footprint(policy) <= Own
      && numSets > 0 && numWays > 0 && blockSize > 0
      && sets.Length0 == numSets && sets.Length1 == numWays
      && Policies.PolicyValid(policy, numSets, numWays)
      && |Lines| == numSets
      && (forall s | 0 <= s < numSets :: |Lines[s]| == numWays && WellFormedSet(Lines[s]))
      && (forall s, w | 0 <= s < numSets && 0 <= w < numWays :: sets[s, w] == Lines[s][w])
    }

    /** The next level is owned: its objects are apart from this level's, it is
        valid, and it has received exactly what this level sent. */
    ghost predicate ChainValid()
      reads `sent, Below()
      decreases Repr, 0
    {
      match next
      case Memory(m) =>
        bottom == m && names == [name, m.name] && shapes == [Shape()]
      case Lower(c) =>
        && c in Repr && c.Repr <= Repr && c !in c.Repr
        && c.Valid() && c.received == sent
        && bottom == c.bottom && names == [name] + c.names && shapes == [Shape()] + c.shapes
    }

    /** This level's own invariant depends on its lines, grid and policy only. */
    twostate lemma LocalFrame()
      requires old(LocalValid())
      requires unchanged(`Lines) && unchanged(Own)
      ensures LocalValid()
    {
    }

    /** The invariant of the chain depends on the requests sent and the levels
        below only. */
    twostate lemma ChainFrame()
      requires old(ChainValid())
      requires unchanged(`sent) && unchanged(Below())
      ensures ChainValid()
    {
    }

    /** Logging one more request received keeps the invariant and the views. */
    twostate lemma ReceivedGrows(r: Request)
      requires old(Valid())
      requires unchanged(`Lines, `sent) && unchanged(Repr)
      requires received == old(received) + [r]
      ensures Valid() && Views() == old(Views())
      ensures r.addr in Addrs(received)
    {
      AddrsSnoc(old(received), r);
      RequestedMono(Lines, sent, numSets, blockSize, old(Addrs(received)), Addrs(received));
      assert LocalValid() && ChainValid();
    }

    /** Counting keeps the invariant, the views and the journals below. */
    twostate lemma Counted()
      requires old(Valid())
      requires unchanged(`Lines, `sent, `received) && unchanged(Repr)
      ensures Valid() && Views() == old(Views())
      ensures LowerJournaled() == old(LowerJournaled()) && LowerLogs() == old(LowerLogs())
    {
      assert LocalValid() && ChainValid();
    }

    /** Passing `r` to the next level and logging it as sent keeps the
        invariant when `r` is for an address this level received or for the
        start of such an address's block. */
    twostate lemma PassedDown(r: Request)
      requires old(Valid())
      requires unchanged(`Lines, `received) && unchanged(Own)
      requires sent == old(sent) + [r]
      requires r.addr in Addrs(received) + Aligned(Addrs(received), blockSize)
      requires next.Lower? ==> next.cache.Valid() && next.cache.received == sent
      ensures Valid()
    {
      LocalFrame();
      SentSnoc(old(sent), r, blockSize, Addrs(received));
      assert ChainValid();
    }

    /** The whole invariant holds again once its three parts do: the
        ownership facts are about constants. */
    twostate lemma ValidAgain()
      requires old(Valid()) && LocalValid() && ChainValid() && Traffic()
      ensures Valid()
    {
    }

    /** The journals below depend on the levels below only. */
    twostate lemma LowerFrame()
      requires unchanged(Below())
      ensures LowerJournaled() == old(LowerJournaled()) && LowerLogs() == old(LowerLogs())
    {
    }

    /** A policy step that keeps the policy valid and the FIFO pointers in
        step, with the lines and the grid untouched, keeps this level's own
        invariant. */
    twostate lemma PolicyStepFrame()
      requires old(GridValid()) && unchanged(`Lines) && unchanged(sets)
      requires Policies.PolicyValid(policy, numSets, numWays)
      requires FifoTracksFills(Policies.StateOf(policy), Lines)
      ensures LocalValid()
    {
    }

    /** The state of this level that an access changes. */
    ghost function State(): LevelState
      reads `Lines, `hits, `misses, `evictions, `sent, Policies.Footprint(policy)
    {
      LevelState(Lines, Policies.StateOf(policy), hits, misses, evictions, sent)
    }

    /** This level's journal: it starts in a state as built, each request
        received takes one AccessStep, and it ends in the state now. */
    ghost predicate Logged()
      reads this, Policies.Footprint(policy)
    {
      LevelJournal(Shape(), steps, received) && steps[|received|] == State()
    }

    /** This level and every level below it keep their journals. */
    ghost predicate Journaled()
      reads this, Below(), Policies.Footprint(policy)
      decreases Repr, 1
    {
      Logged() && LowerJournaled()
    }

    /** Every level below this one keeps its journal. */
    ghost predicate LowerJournaled()
      reads Below()
      decreases Repr, 0
    {
      match next
      case Memory(_) => true
      case Lower(c) => LowerOwned() ==> c.Journaled()
    }

    /** The level below is owned apart from this one, policy included: facts
        about constants only, which Valid() implies. */
    ghost predicate LowerOwned()
      requires next.Lower?
    {
      && next.cache in Repr && next.cache.Repr < Repr
      && next.cache.Below() <= next.cache.Repr && Policies.Footprint(next.cache.policy) <= next.cache.Repr
    }

    /** The journals of this level and every level below it, top first. */
    ghost function Logs(): (logs: seq<seq<LevelState>>)
      reads this, Below()
      decreases Repr, 1
      ensures |logs| > 0 && logs[0] == steps
    {
      [steps] + LowerLogs()
    }

    /** The journals of the levels below this one, top first. */
    ghost function LowerLogs(): seq<seq<LevelState>>
      reads Below()
      decreases Repr, 0
    {
      match next
      case Memory(_) => []
      case Lower(c) => if LowerOwned() then c.Logs() else []
    }

    /** A valid, journaled level that has received and sent nothing. */
    ghost predicate Unused()
      reads this, Repr, Below(), Policies.Footprint(policy)
    {
      Valid() && Journaled() && received == [] && sent == []
    }

    /** Valid() makes the level below owned as LowerOwned says. */
    lemma Owned()
      requires Valid()
      ensures next.Lower? ==> LowerOwned() && next.cache.Valid() && next.cache.received == sent
      ensures next.Lower? ==> LowerJournaled() == next.cache.Journaled() && LowerLogs() == next.cache.Logs()
    {
      if next.Lower? {
        assert ChainValid();
        assert next.cache.Valid();
        assert next.cache.LocalValid();
      }
    }

    /** The journals of a valid, journaled hierarchy are journals of its
        shapes for the requests its top level received. */
    lemma {:induction false} JournalOf()
      requires Valid() && Journaled()
      ensures Journal(shapes, Logs(), received)
      decreases Repr
    {
      Owned();
      match next
      case Memory(_) =>
      case Lower(c) =>
        c.JournalOf();
        assert Logs()[1..] == c.Logs() && shapes[1..] == c.shapes;
    }

    /** The hierarchy as it is now is the journals' chain after every request
        the top level received, with the shapes it was built with. */
    lemma {:induction false} CurrentChain()
      requires Valid() && Journaled()
      ensures |ChainAt(Logs(), |received|)| == |Logs()| == |shapes|
      ensures Views() == Hierarchy(shapes, ChainAt(Logs(), |received|))
      decreases Repr
    {
      Owned();
      ViewsUnfold();
      match next
      case Memory(_) =>
      case Lower(c) =>
        c.CurrentChain();
        assert Logs()[1..] == c.Logs();
    }

    /** This level as a value. */
    ghost function View(): LevelView
      reads `Lines
    {
      LevelView(name, numSets, numWays, blockSize, hitLatency, Lines)
    }

    /** This level and every level below it, top first. */
    ghost function Views(): (vs: seq<LevelView>)
      requires Valid()
      reads `Lines, `sent, `received, Repr
      decreases Repr
      ensures |vs| > 0 && vs[0] == View() && AllWellFormed(vs)
    {
      assert ChainValid();
      [View()] + match next
        case Memory(_) => []
        case Lower(c) => c.Views()
    }

    /** The level names recorded at construction are those of the views, then
        the memory's. */
    lemma {:induction false} NamesMatch()
      requires Valid()
      ensures names == Names(Views()) + [bottom.name]
      decreases Repr
    {
      match next
      case Memory(_) =>
      case Lower(c) =>
        c.NamesMatch();
    }

    /** The shapes recorded at construction are those of the views: no access
        changes a level's name, geometry or hit latency. */
    lemma {:induction false} ShapesMatch()
      requires Valid()
      ensures Shapes(Views()) == shapes
      decreases Repr
    {
      ViewsUnfold();
      match next
      case Memory(_) =>
      case Lower(c) =>
        c.ShapesMatch();
    }

    /** A level holds no block that no request it received lies in. */
    lemma NotHeld(x: nat)
      requires Valid()
      requires forall a | a in Addrs(received) :: a / blockSize != x / blockSize
      ensures !Resident(View(), x)
    {
      var s, t := SetIndex(x, numSets, blockSize), Tag(x, numSets, blockSize);
      HoldsIff(Lines[s], t);
      if Holds(Lines[s], t) {
        var w :| 0 <= w < |Lines[s]| && Lines[s][w].valid && Lines[s][w].tag == t;
        BlockAddressOfAddress(x, numSets, blockSize);
        assert x - x % blockSize in Aligned(Addrs(received), blockSize);
        var a :| a in Addrs(received) && a - a % blockSize == x - x % blockSize;
        SameBlock(a, x, blockSize);
      }
    }

    /** An address whose block no request received at the top can have
        brought into any level is resident nowhere: the memory answers it, and
        every level's hit latency is added to the memory's latency. */
    lemma {:induction false} ColdWhenUntouched(x: nat)
      requires Valid() && Untouched(shapes, Addrs(received), x)
      ensures Lookup(Views(), bottom, x) == AccessResult(bottom.name, bottom.latency + SumLatency(shapes))
      decreases Repr
    {
      ViewsUnfold();
      NotHeld(x);
      var addrs := Addrs(received);
      match next
      case Memory(m) =>
        assert Views()[1..] == [];
      case Lower(c) =>
        assert shapes[1..] == c.shapes;
        SentWithin(sent, blockSize, addrs);
        UntouchedMono(c.shapes, Addrs(c.received), addrs + Aligned(addrs, blockSize), x);
        c.ColdWhenUntouched(x);
        assert Views()[1..] == c.Views();
    }

    /** A level built from `config`, owning a chain built from `lower` that ends
        in `memory`: every line invalid, every counter zero, fresh policies. */
    constructor (config: LevelConfig, lower: seq<LevelConfig>, memory: MainMemory)
      requires ValidConfig(config) && forall i | 0 <= i < |lower| :: ValidConfig(lower[i])
      ensures Unused() && fresh(Repr)
      ensures Views() == ConfigViews([config] + lower)
      ensures bottom == memory
      ensures hits == 0 && misses == 0 && evictions == 0
      ensures Policies.StateOf(policy) == Policies.InitialState(config.policy, config.sets, config.ways)
      decreases |lower|, 2
    {
      ghost var own, below;
      var nx, p, grid;
      nx, p, grid, own, below := BuildParts(config, lower, memory);
      next := nx;
      bottom := if nx.Memory? then nx.mem else nx.cache.bottom;
      names := [config.name] + if nx.Memory? then [nx.mem.name] else nx.cache.names;
      shapes := [LevelView(config.name, config.sets, config.ways, config.blockSize, config.hitLatency, [])]
                + if nx.Memory? then [] else nx.cache.shapes;
      name, numSets, numWays, blockSize, hitLatency :=
        config.name, config.sets, config.ways, config.blockSize, config.hitLatency;
      policy := p;
      sets := grid;
      Lines := EmptyLines(config.sets, config.ways);
      hits, misses, evictions := 0, 0, 0;
      received, sent := [], [];
      steps := [LevelState(Lines, Policies.InitialState(config.policy, config.sets, config.ways), 0, 0, 0, [])];
      Own := own;
      Repr := own + below;
      new;
      InitValid(config, lower);
    }

    /** Everything a level built from `config` over `lower` allocates: the
        chain below, then a fresh policy and grid apart from it. */
    static method BuildParts(config: LevelConfig, lower: seq<LevelConfig>, memory: MainMemory)
      returns (nx: Next, p: Policies.Policy, grid: array2<Line>, ghost own: set<object>, ghost below: set<object>)
      requires forall i | 0 <= i < |lower| :: ValidConfig(lower[i])
      ensures own == {grid} + Policies.Footprint(p) && fresh(own + below) && own !! below
      ensures below == match nx case Memory(_) => {} case Lower(c) => {c} + c.Repr
      ensures nx.Memory? <==> lower == []
      ensures nx.Memory? ==> nx.mem == memory
      ensures nx.Lower? ==>
                && nx.cache.Unused() && fresh(nx.cache.Repr) && fresh(nx.cache)
                && nx.cache.Views() == ConfigViews(lower) && nx.cache.bottom == memory
                && ({grid} + Policies.Footprint(p)) !! ({nx.cache} + nx.cache.Repr)
      ensures fresh(grid) && fresh(Policies.Footprint(p)) && grid !in Policies.Footprint(p)
      ensures Policies.PolicyValid(p, config.sets, config.ways)
      ensures Policies.StateOf(p) == Policies.InitialState(config.policy, config.sets, config.ways)
      ensures grid.Length0 == config.sets && grid.Length1 == config.ways
      ensures forall s, w | 0 <= s < config.sets && 0 <= w < config.ways :: grid[s, w] == Line(false, false, 0)
      decreases |lower|, 1
    {
      nx := BuildNext(lower, memory);
      p, grid := NewParts(config);
      own := {grid} + Policies.Footprint(p);
      below := match nx case Memory(_) => {} case Lower(c) => {c} + c.Repr;
    }

    /** The policy and the grid of invalid lines of a level built from `config`. */
    static method NewParts(config: LevelConfig) returns (p: Policies.Policy, grid: array2<Line>)
      ensures fresh(grid) && fresh(Policies.Footprint(p)) && grid !in Policies.Footprint(p)
      ensures Policies.PolicyValid(p, config.sets, config.ways)
      ensures Policies.StateOf(p) == Policies.InitialState(config.policy, config.sets, config.ways)
      ensures grid.Length0 == config.sets && grid.Length1 == config.ways
      ensures forall s, w | 0 <= s < config.sets && 0 <= w < config.ways :: grid[s, w] == Line(false, false, 0)
    {
      p := Policies.NewPolicy(config.policy, config.sets, config.ways);
      grid := new Line[config.sets, config.ways]((_, _) => Line(false, false, 0));
    }

    /** The views of a level are its own, then those of the levels below. */
    lemma ViewsUnfold()
      requires Valid()
      ensures next.Memory? ==> Views() == [View()]
      ensures next.Lower? ==> next.cache.Valid() && Views() == [View()] + next.cache.Views()
    {
    }

    /** A level built from `config`, with every line invalid, a fresh policy,
        zero counters, nothing sent and a journal holding that state alone,
        over an unused chain built from `lower`, is unused and shows the views
        of the configurations. */
    lemma InitValid(config: LevelConfig, lower: seq<LevelConfig>)
      requires Own == {sets} + Policies.Footprint(policy) && Repr == Own + Below()
      requires this !in Repr && Own !! Below()
      requires ValidConfig(config)
      requires name == config.name && numSets == config.sets && numWays == config.ways
      requires blockSize == config.blockSize && hitLatency == config.hitLatency
      requires sets.Length0 == numSets && sets.Length1 == numWays
      requires Policies.PolicyValid(policy, numSets, numWays)
      requires Policies.StateOf(policy) == Policies.InitialState(config.policy, numSets, numWays)
      requires Lines == EmptyLines(numSets, numWays)
      requires forall s, w | 0 <= s < numSets && 0 <= w < numWays :: sets[s, w] == Line(false, false, 0)
      requires sent == [] && received == [] && hits == 0 && misses == 0 && evictions == 0
      requires steps == [LevelState(Lines, Policies.InitialState(config.policy, numSets, numWays), 0, 0, 0, [])]
      requires next.Memory? ==> bottom == next.mem && names == [name, next.mem.name] && shapes == [Shape()]
      requires next.Lower? ==>
                 && next.cache.Unused() && next.cache.Views() == ConfigViews(lower)
                 && bottom == next.cache.bottom && names == [name] + next.cache.names
                 && shapes == [Shape()] + next.cache.shapes
      requires next.Memory? <==> lower == []
      ensures Unused() && Views() == ConfigViews([config] + lower)
    {
      EmptyLinesValid(numSets, numWays);
      Policies.InitialStateConsistent(config.policy, numSets, numWays);
      FreshFifoTracks(Policies.StateOf(policy), Lines);
      assert LocalValid();
      assert ChainValid();
      Owned();
      assert ([config] + lower)[1..] == lower;
      ViewsUnfold();
    }

    /** The level below one built from `lower`: the memory itself when
        `lower` is empty, otherwise a fresh chain of caches built from it. */
    static method BuildNext(lower: seq<LevelConfig>, memory: MainMemory) returns (nx: Next)
      requires forall i | 0 <= i < |lower| :: ValidConfig(lower[i])
      ensures nx.Memory? <==> lower == []
      ensures nx.Memory? ==> nx.mem == memory
      ensures nx.Lower? ==>
                && nx.cache.Unused() && fresh(nx.cache.Repr) && fresh(nx.cache)
                && nx.cache.Views() == ConfigViews(lower) && nx.cache.bottom == memory
      decreases |lower|, 0
    {
      if lower == [] {
        nx := Memory(memory);
      } else {
        var c := new Cache(lower[0], lower[1..], memory);
        assert lower == [lower[0]] + lower[1..];
        nx := Lower(c);
      }
    }

    /** The lowest way of set s whose line is valid and holds `tag` (numWays
        when the set does not hold it). */
    method FindWay(s: nat, tag: nat) returns (w: nat)
      requires Valid() && s < numSets
      ensures w == WayOf(Lines[s], tag)
    {
      w := 0;
      while w < numWays
        invariant w <= numWays
        invariant forall j | 0 <= j < w :: !(Lines[s][j].valid && Lines[s][j].tag == tag)
      {
        if sets[s, w].valid && sets[s, w].tag == tag {
          WayOfExact(Lines[s], tag, w);
          return;
        }
        w := w + 1;
      }
      WayOfExact(Lines[s], tag, w);
    }

    /** A request from the level above: a Load or a Store, answered as Lookup
        answers on the hierarchy as it was; this level's state takes one
        AccessStep, which its journal records, and the journals of the levels
        below only grow. */
    method Serve(req: Request) returns (r: AccessResult)
      requires Valid() && Journaled()
      modifies this, Repr
      decreases Repr, 8
      ensures Valid() && Journaled() && Extends(old(Logs()), Logs())
      ensures r == Lookup(old(Views()), bottom, req.addr)
      ensures received == old(received) + [req]
      ensures AccessStep(numSets, blockSize, old(State()), State(), req.addr, req.Write?)
    {
      ghost var log, reqs := steps, received;
      r := Receive(req);
      LevelJournalSnoc(Shape(), log, reqs, req, State());
      label Received:
      steps := log + [State()];
      LowerFrame@Received();
      assert Logged();
      ExtendsCons(log, steps, old(LowerLogs()), LowerLogs());
    }

    /** Log `req` as received, then do its work. */
    method Receive(req: Request) returns (r: AccessResult)
      requires Valid() && LowerJournaled()
      modifies this, Repr
      decreases Repr, 7
      ensures Valid() && LowerJournaled() && Extends(old(LowerLogs()), LowerLogs())
      ensures r == Lookup(old(Views()), bottom, req.addr)
      ensures received == old(received) + [req]
      ensures AccessStep(numSets, blockSize, old(State()), State(), req.addr, req.Write?)
    {
      received := received + [req];
      ReceivedGrows(req);
      LowerFrame();
      r := Access(req.addr, req.Write?);
    }

    /** A Load: the answer is the one Lookup gives on the hierarchy as it was,
        and this level's state takes one AccessStep. */
    method Load(addr: nat) returns (r: AccessResult)
      requires Valid() && Journaled()
      modifies this, Repr
      decreases Repr, 9
      ensures Valid() && Journaled() && Extends(old(Logs()), Logs())
      ensures r == Lookup(old(Views()), bottom, addr)
      ensures received == old(received) + [Read(addr)]
      ensures AccessStep(numSets, blockSize, old(State()), State(), addr, false)
    {
      r := Serve(Read(addr));
    }

    /** A Store: as a Load (a miss fetches the block with a Load from the next
        level: write-allocate), and the line holding the block ends dirty. */
    method Store(addr: nat) returns (r: AccessResult)
      requires Valid() && Journaled()
      modifies this, Repr
      decreases Repr, 9
      ensures Valid() && Journaled() && Extends(old(Logs()), Logs())
      ensures r == Lookup(old(Views()), bottom, addr)
      ensures received == old(received) + [Write(addr)]
      ensures AccessStep(numSets, blockSize, old(State()), State(), addr, true)
    {
      r := Serve(Write(addr));
    }

    /** The work of a Load (write false) or a Store (write true): look the
        block up in its set; on a hit count it and tell the policy, on a miss
        fetch the block and fill it. */
    method Access(addr: nat, write: bool) returns (r: AccessResult)
      requires Valid()
      requires addr in Addrs(received)
      requires LowerJournaled()
      modifies this, Repr
      decreases Repr, 6
      ensures LowerJournaled() && Extends(old(LowerLogs()), LowerLogs())
      ensures Valid()
      ensures r == Lookup(old(Views()), bottom, addr)
      ensures received == old(received)
      ensures AccessStep(numSets, blockSize, old(State()), State(), addr, write)
    {
      var s := SetIndex(addr, numSets, blockSize);
      var t := Tag(addr, numSets, blockSize);
      var w := FindWay(s, t);
      if w < numWays {
        ghost var lower := LowerLogs();
        r := HitAt(addr, w, write);
        LowerFrame();
        ExtendsRefl(lower);
      } else {
        r := MissAt(addr, write);
      }
    }

    /** A miss of `addr`: the levels below answer, this level's hit latency
        is added, and its state takes the miss branch of AccessStep. */
    method MissAt(addr: nat, write: bool) returns (r: AccessResult)
      requires Valid()
      requires addr in Addrs(received)
      requires !Holds(Lines[SetIndex(addr, numSets, blockSize)], Tag(addr, numSets, blockSize))
      requires LowerJournaled()
      modifies this, Repr
      decreases Repr, 5
      ensures LowerJournaled() && Extends(old(LowerLogs()), LowerLogs())
      ensures Valid()
      ensures received == old(received)
      ensures var below := Lookup(old(Views())[1..], bottom, addr);
              r == AccessResult(below.hitLevel, below.totalCycles + hitLatency)
      ensures r == Lookup(old(Views()), bottom, addr)
      ensures AccessStep(numSets, blockSize, old(State()), State(), addr, write)
    {
      r := MissFill(addr, write);
    }

    /** A hit of `addr` at way w: this level answers with its name and hit
        latency, and its state takes the hit branch of AccessStep. */
    method HitAt(addr: nat, w: nat, write: bool) returns (r: AccessResult)
      requires Valid()
      requires w < numWays && w == WayOf(Lines[SetIndex(addr, numSets, blockSize)], Tag(addr, numSets, blockSize))
      modifies this, Own
      ensures Valid()
      ensures received == old(received)
      ensures r == AccessResult(name, hitLatency) == Lookup(old(Views()), bottom, addr)
      ensures AccessStep(numSets, blockSize, old(State()), State(), addr, write)
      ensures unchanged(Below())
    {
      var s := SetIndex(addr, numSets, blockSize);
      HoldsIff(Lines[s], Tag(addr, numSets, blockSize));
      Hit(s, w, write);
      r := AccessResult(name, hitLatency);
    }

    /** A miss followed, for a Store, by marking the filled line dirty. */
    method MissFill(addr: nat, write: bool) returns (r: AccessResult)
      requires Valid()
      requires addr in Addrs(received)
      requires !Holds(Lines[SetIndex(addr, numSets, blockSize)], Tag(addr, numSets, blockSize))
      requires LowerJournaled()
      modifies this, Repr
      decreases Repr, 4
      ensures LowerJournaled() && Extends(old(LowerLogs()), LowerLogs())
      ensures Valid()
      ensures received == old(received)
      ensures var below := Lookup(old(Views())[1..], bottom, addr);
              r == AccessResult(below.hitLevel, below.totalCycles + hitLatency)
      ensures FillOf(numSets, blockSize, old(State()).(misses := old(misses) + 1, sent := old(sent) + [Read(addr)]),
                     State(), SetIndex(addr, numSets, blockSize), Tag(addr, numSets, blockSize), write)
    {
      var s := SetIndex(addr, numSets, blockSize);
      var t := Tag(addr, numSets, blockSize);
      r := Miss(addr);
      label Missed:
      if write {
        ghost var st1 := State();
        FillThenDirty(numSets, blockSize, old(State()).(misses := old(misses) + 1, sent := old(sent) + [Read(addr)]), st1, s, t);
        var k := FindWay(s, t);
        MarkDirty(s, k);
        LowerFrame@Missed();
      }
    }

    /** A miss on `addr`: count it, fetch the block from the next level (whose
        answer, plus this level's hit latency, is the answer), and fill it. */
    method Miss(addr: nat) returns (r: AccessResult)
      requires Valid()
      requires addr in Addrs(received)
      requires !Holds(Lines[SetIndex(addr, numSets, blockSize)], Tag(addr, numSets, blockSize))
      requires LowerJournaled()
      modifies this, Repr
      decreases Repr, 3
      ensures LowerJournaled() && Extends(old(LowerLogs()), LowerLogs())
      ensures Valid()
      ensures received == old(received)
      ensures var below := Lookup(old(Views())[1..], bottom, addr);
              r == AccessResult(below.hitLevel, below.totalCycles + hitLatency)
      ensures FillOf(numSets, blockSize, old(State()).(misses := old(misses) + 1, sent := old(sent) + [Read(addr)]),
                     State(), SetIndex(addr, numSets, blockSize), Tag(addr, numSets, blockSize), false)
    {
      ghost var fetched := old(State()).(misses := old(misses) + 1, sent := old(sent) + [Read(addr)]);
      ghost var lower := LowerLogs();
      misses := misses + 1;
      Counted();
      r := SendDown(Read(addr));
      ghost var fetchedLower := LowerLogs();
      assert State() == fetched;
      r := r.(totalCycles := r.totalCycles + hitLatency);
      BlockAddressOfAddress(addr, numSets, blockSize);
      AlignedMember(Addrs(received), blockSize, addr);
      Fill(SetIndex(addr, numSets, blockSize), Tag(addr, numSets, blockSize));
      ExtendsTrans(lower, fetchedLower, LowerLogs());
    }

    /** A hit on way w of set s: count it, mark the line dirty for a Store, and
        tell the policy. */
    method Hit(s: nat, w: nat, write: bool)
      requires Valid() && s < numSets && w < numWays && Lines[s][w].valid
      modifies this, Own
      ensures Valid()
      ensures received == old(received)
      ensures Policies.InRange(old(Policies.StateOf(policy)), s, w, numWays)
      ensures State() == old(State()).(
                lines := if write then old(Lines)[s := old(Lines[s])[w := old(Lines[s][w]).(dirty := true)]]
                         else old(Lines),
                policy := Policies.AfterHit(old(Policies.StateOf(policy)), s, w, numWays),
                hits := old(hits) + 1)
    {
      hits := hits + 1;
      if write {
        MarkDirty(s, w);
      }
      label Marked:
      Policies.OnHit(policy, numSets, numWays, s, w);
      PolicyStepFrame@Marked();
      ChainFrame();
      ValidAgain();
    }

    /** Mark the valid line at way w of set s dirty. */
    method MarkDirty(s: nat, w: nat)
      requires Valid() && s < numSets && w < numWays && Lines[s][w].valid
      modifies `Lines, sets
      ensures Valid() && unchanged(Below())
      ensures State() == old(State()).(lines := old(Lines)[s := old(Lines[s])[w := old(Lines[s][w]).(dirty := true)]])
    {
      DirtyKeepsWellFormed(Lines[s], w);
      DirtyKeepsFifo(Policies.StateOf(policy), Lines, s, w);
      WriteKeepsRequested(Lines, numSets, blockSize, Addrs(received), s, w, Lines[s][w].(dirty := true));
      WriteLine(s, w, sets[s, w].(dirty := true));
      ChainFrame();
      ValidAgain();
    }

    /** Write `line` into way w of set s, keeping every set well formed. */
    method WriteLine(s: nat, w: nat, line: Line)
      requires GridValid() && s < numSets && w < numWays && WellFormedSet(Lines[s][w := line])
      modifies `Lines, sets
      ensures GridValid()
      ensures Lines == old(Lines)[s := old(Lines[s])[w := line]]
    {
      ghost var row' := Lines[s][w := line];
      ReplaceRowKeepsSets(Lines, s, row', numWays, Lines[s := row']);
      sets[s, w] := line;
      Lines := Lines[s := row'];
      assert forall i, j | 0 <= i < numSets && 0 <= j < numWays :: sets[i, j] == Lines[i][j];
    }

    /** Pass `req` to the next level, which answers as the levels below answer:
        the fetch of a miss, or the write-back of a dirty victim. */
    method SendDown(req: Request) returns (r: AccessResult)
      requires Valid()
      requires req.addr in Addrs(received) + Aligned(Addrs(received), blockSize)
      requires LowerJournaled()
      modifies this, Repr
      decreases Repr, 0
      ensures LowerJournaled() && Extends(old(LowerLogs()), LowerLogs())
      ensures Valid()
      ensures r == Lookup(old(Views())[1..], bottom, req.addr)
      ensures received == old(received)
      ensures State() == old(State()).(sent := old(sent) + [req])
    {
      ViewsUnfold();
      ghost var lower := LowerLogs();
      label Asking:
      match next {
        case Memory(m) =>
          r := if req.Read? then m.Load(req.addr) else m.Store(req.addr);
        case Lower(c) =>
          Owned();
          r := c.Serve(req);
          assert LowerJournaled() && Extends(lower, LowerLogs());
      }
      label Asked:
      sent := sent + [req];
      LowerFrame@Asked();
      PassedDown@Asking(req);
    }

    /** Put `tag` into set s, which does not hold it: into the lowest invalid
        way, or else over the policy's victim, first writing the victim back to
        the next level when it is dirty. */
    method Fill(s: nat, tag: nat)
      requires Valid() && s < numSets && !Holds(Lines[s], tag)
      requires BlockAddress(tag, s, numSets, blockSize) in Aligned(Addrs(received), blockSize)
      requires LowerJournaled()
      modifies this, Repr
      decreases Repr, 2
      ensures LowerJournaled() && Extends(old(LowerLogs()), LowerLogs())
      ensures Valid()
      ensures received == old(received)
      ensures FillOf(numSets, blockSize, old(State()), State(), s, tag, false)
    {
      ghost var row := Lines[s];
      ghost var st0 := State();
      var victim := numWays;
      for w := 0 to numWays
        invariant victim == numWays ==> forall j | 0 <= j < w :: Lines[s][j].valid
        invariant victim < numWays ==> victim == FirstInvalid(row)
      {
        if !sets[s, w].valid {
          victim := w;
          break;
        }
      }
      ghost var lower := LowerLogs();
      if victim == numWays {
        assert Full(row);
        victim := Policies.GetVictim(policy, numSets, numWays, s);
        EvictDirty(s, victim);
      }
      ghost var evicted := LowerLogs();
      label Evicted:
      Install(s, victim, tag);
      LowerFrame@Evicted();
      ExtendsTrans(lower, evicted, LowerLogs());
      assert FillStep(st0.policy, State().policy, row, Lines[s], s, tag, victim, false);
    }

    /** The write-back of a fill: when the line at way w of set s is valid and
        dirty, Store its block address to the next level and count an eviction. */
    method EvictDirty(s: nat, w: nat)
      requires Valid() && s < numSets && w < numWays
      requires LowerJournaled()
      modifies this, Repr
      decreases Repr, 1
      ensures LowerJournaled() && Extends(old(LowerLogs()), LowerLogs())
      ensures Valid()
      ensures received == old(received)
      ensures Lines == old(Lines) && Policies.StateOf(policy) == old(Policies.StateOf(policy))
      ensures hits == old(hits) && misses == old(misses)
      ensures sent == old(sent) + WriteBack(old(Lines[s]), w, s, numSets, blockSize)
      ensures evictions == old(evictions) + |WriteBack(old(Lines[s]), w, s, numSets, blockSize)|
    {
      var line := sets[s, w];
      if line.valid && line.dirty {
        var evictAddr := (line.tag * numSets + s) * blockSize;
        assert evictAddr == BlockAddress(Lines[s][w].tag, s, numSets, blockSize);
        var ignored := SendDown(Write(evictAddr));
        label Sent:
        evictions := evictions + 1;
        Counted@Sent();
      }
    }

    /** Mark way w of set s valid, clean, holding `tag`, and tell the policy. */
    method Install(s: nat, w: nat, tag: nat)
      requires Valid() && s < numSets && w < numWays && !Holds(Lines[s], tag)
      requires Full(Lines[s]) || w == FirstInvalid(Lines[s])
      requires BlockAddress(tag, s, numSets, blockSize) in Aligned(Addrs(received), blockSize)
      modifies this, Own
      ensures Valid()
      ensures received == old(received)
      ensures Policies.InRange(old(Policies.StateOf(policy)), s, w, numWays)
      ensures State() == old(State()).(
                lines := old(Lines)[s := FillRow(old(Lines[s]), w, tag)],
                policy := Policies.AfterFill(old(Policies.StateOf(policy)), s, w, numWays))
    {
      FillKeepsWellFormed(Lines[s], w, tag);
      FifoAfterFill(Policies.StateOf(policy), Lines, s, w, tag, numWays);
      WriteKeepsRequested(Lines, numSets, blockSize, Addrs(received), s, w, Line(true, false, tag));
      WriteLine(s, w, Line(true, false, tag));
      assert Traffic();
      label Written:
      Policies.OnFill(policy, numSets, numWays, s, w);
      PolicyStepFrame@Written();
      ChainFrame();
      ValidAgain();
    }
  }
}
