/** The drivers of a simulation: a list of addresses loaded one after another
    from the top level, and a trace of Load ('L') and Store operations run in
    order against one hierarchy built for it, recording every answer. */
module Simulation {
  import opened Types
  import opened Levels
  import opened CacheSim

  /** One operation of a trace: its type character and its address. */
  datatype TraceOp = TraceOp(kind: char, addr: nat)

  /** The call an operation makes: 'L' is a Load, any other character a Store. */
  function Dispatch(op: TraceOp): (req: Request)
    ensures req.addr == op.addr
    ensures req.Read? <==> op.kind == 'L'
  {
    if op.kind == 'L' then Read(op.addr) else Write(op.addr)
  }

  /** The calls a trace makes, in order. */
  function Requests(ops: seq<TraceOp>): (reqs: seq<Request>)
    ensures |reqs| == |ops|
    ensures forall i | 0 <= i < |ops| :: reqs[i] == Dispatch(ops[i])
  {
    seq(|ops|, i requires 0 <= i < |ops| => Dispatch(ops[i]))
  }

  /** The Loads of a list of addresses, in order. */
  function Reads(addrs: seq<nat>): (reqs: seq<Request>)
    ensures |reqs| == |addrs|
    ensures forall i | 0 <= i < |addrs| :: reqs[i] == Read(addrs[i])
  {
    seq(|addrs|, i requires 0 <= i < |addrs| => Read(addrs[i]))
  }

  /** The hit latencies of the configured levels, summed. */
  function ConfigLatency(configs: seq<LevelConfig>): nat
  {
    if configs == [] then 0 else configs[0].hitLatency + ConfigLatency(configs[1..])
  }

  /** On a freshly built hierarchy nothing is resident: any access is answered
      by the memory, at its latency plus every level's hit latency. */
  lemma FreshIsCold(configs: seq<LevelConfig>, mem: MainMemory, addr: nat)
    requires forall i | 0 <= i < |configs| :: ValidConfig(configs[i])
    ensures Lookup(ConfigViews(configs), mem, addr) == AccessResult(mem.name, mem.latency + ConfigLatency(configs))
  {
    var vs := ConfigViews(configs);
    EmptyHoldsNothing(vs, addr);
    ColdAccess(vs, mem, addr);
    ConfigSumLatency(configs);
  }

  lemma {:induction false} ConfigSumLatency(configs: seq<LevelConfig>)
    ensures SumLatency(ConfigViews(configs)) == ConfigLatency(configs)
  {
    if configs != [] {
      ConfigSumLatency(configs[1..]);
    }
  }

  /** The level that answers an access of a valid hierarchy is one of its
      names (its cache levels, then the memory). */
  lemma AnswerIsNamed(c: Cache, addr: nat)
    requires c.Valid()
    ensures Lookup(c.Views(), c.bottom, addr).hitLevel in c.names
  {
    c.NamesMatch();
    LookupHitLevelKnown(c.Views(), c.bottom, addr);
  }

  /** The top level of a hierarchy as a value, with the given lines. */
  function TopView(c: Cache, lines: seq<seq<Line>>): LevelView
  {
    LevelView(c.name, c.numSets, c.numWays, c.blockSize, c.hitLatency, lines)
  }

  /** An address accessed twice in a row is answered the second time by the
      top level, at its hit latency: the first access left its block there. */
  lemma RepeatHitsTop(cache: Cache, addr: nat, st: LevelState, st': LevelState, write: bool, vs: seq<LevelView>)
    requires AccessStep(cache.numSets, cache.blockSize, st, st', addr, write)
    requires AllWellFormed(vs) && |vs| > 0 && vs[0] == TopView(cache, st'.lines)
    ensures Lookup(vs, cache.bottom, addr) == AccessResult(cache.name, cache.hitLatency)
  {
    AccessLeavesResident(cache.numSets, cache.blockSize, st, st', addr, write);
    assert Resident(vs[0], addr);
  }

  /** The answer of an access that no level holds: the memory's name, and its
      latency plus every level's hit latency. */
  ghost function ColdAnswer(c: Cache): AccessResult
  {
    AccessResult(c.bottom.name, c.bottom.latency + SumLatency(c.shapes))
  }

  /** What holds of an access of `addr` issued now at the top of a valid
      hierarchy: its answer, Lookup's on the hierarchy as it is, names one of
      the hierarchy's levels; the hierarchy keeps the names and shapes it was
      built with; and the answer is the memory's when no request received so
      far can have brought the block of `addr` into any level. */
  lemma Answerable(c: Cache, addr: nat)
    requires c.Valid()
    ensures Names(c.Views()) + [c.bottom.name] == c.names && Shapes(c.Views()) == c.shapes
    ensures Lookup(c.Views(), c.bottom, addr).hitLevel in c.names
    ensures Untouched(c.shapes, Addrs(c.received), addr) ==> Lookup(c.Views(), c.bottom, addr) == ColdAnswer(c)
  {
    AnswerIsNamed(c, addr);
    c.NamesMatch();
    c.ShapesMatch();
    if Untouched(c.shapes, Addrs(c.received), addr) {
      c.ColdWhenUntouched(addr);
    }
  }

  /** The record of the first `i` requests of `reqs` issued to the top level
      `cache`: it has received exactly those after `base`; answer j is
      Lookup's on the hierarchy `views[j]` it met, of the hierarchy's names
      and shapes, whose top level held `states[j].lines`; answer j is the
      memory's when the requests before it cannot have brought its block into
      any level; and request j took the top level from `states[j]` to
      `states[j + 1]`. */
  ghost predicate Recorded(cache: Cache, reqs: seq<Request>, i: nat, history: seq<AccessResult>,
                           views: seq<seq<LevelView>>, states: seq<LevelState>,
                           received: seq<Request>, base: seq<Request>)
  {
    && i <= |reqs|
    && received == base + reqs[..i]
    && |history| == i && |views| == i && |states| == i + 1
    && AnswersRecorded(cache, reqs, i, history, views, states)
    && ColdRecorded(cache, reqs, i, history, base)
    && StepsRecorded(cache, reqs, i, states)
  }

  ghost predicate AnswersRecorded(cache: Cache, reqs: seq<Request>, i: nat, history: seq<AccessResult>,
                                  views: seq<seq<LevelView>>, states: seq<LevelState>)
    requires i <= |reqs| && |history| == i && |views| == i && |states| == i + 1
  {
    forall j | 0 <= j < i ::
      && AllWellFormed(views[j]) && |views[j]| > 0 && views[j][0] == TopView(cache, states[j].lines)
      && Names(views[j]) + [cache.bottom.name] == cache.names && Shapes(views[j]) == cache.shapes
      && history[j] == Lookup(views[j], cache.bottom, reqs[j].addr)
      && history[j].hitLevel in cache.names
  }

  ghost predicate ColdRecorded(cache: Cache, reqs: seq<Request>, i: nat, history: seq<AccessResult>,
                               base: seq<Request>)
    requires i <= |reqs| && |history| == i
  {
    forall j | 0 <= j < i ::
      Untouched(cache.shapes, Addrs(base + reqs[..j]), reqs[j].addr) ==> history[j] == ColdAnswer(cache)
  }

  ghost predicate StepsRecorded(cache: Cache, reqs: seq<Request>, i: nat, states: seq<LevelState>)
    requires i <= |reqs| && |states| == i + 1
  {
    forall j | 0 <= j < i ::
      AccessStep(cache.numSets, cache.blockSize, states[j], states[j + 1], reqs[j].addr, reqs[j].Write?)
  }

  /** One more request, answered as Answerable says on the hierarchy it met
      and taking the top level one AccessStep further, extends the record by
      one. */
  lemma {:induction false} RecordedSnoc(cache: Cache, reqs: seq<Request>, i: nat, history: seq<AccessResult>,
                                        views: seq<seq<LevelView>>, states: seq<LevelState>,
                                        received: seq<Request>, base: seq<Request>,
                                        res: AccessResult, vs: seq<LevelView>, st: LevelState)
    requires i < |reqs| && Recorded(cache, reqs, i, history, views, states, received, base)
    requires AllWellFormed(vs) && |vs| > 0 && vs[0] == TopView(cache, states[i].lines)
    requires Names(vs) + [cache.bottom.name] == cache.names && Shapes(vs) == cache.shapes
    requires res == Lookup(vs, cache.bottom, reqs[i].addr) && res.hitLevel in cache.names
    requires Untouched(cache.shapes, Addrs(received), reqs[i].addr) ==> res == ColdAnswer(cache)
    requires AccessStep(cache.numSets, cache.blockSize, states[i], st, reqs[i].addr, reqs[i].Write?)
    ensures Recorded(cache, reqs, i + 1, history + [res], views + [vs], states + [st],
                     received + [reqs[i]], base)
  {
    assert reqs[..i + 1] == reqs[..i] + [reqs[i]];
    AnswersSnoc(cache, reqs, i, history, views, states, res, vs, st);
    ColdSnoc(cache, reqs, i, history, base, res);
    StepsSnoc(cache, reqs, i, states, st);
  }

  lemma {:induction false} AnswersSnoc(cache: Cache, reqs: seq<Request>, i: nat, history: seq<AccessResult>,
                                       views: seq<seq<LevelView>>, states: seq<LevelState>,
                                       res: AccessResult, vs: seq<LevelView>, st: LevelState)
    requires i < |reqs| && |history| == i && |views| == i && |states| == i + 1
    requires AnswersRecorded(cache, reqs, i, history, views, states)
    requires AllWellFormed(vs) && |vs| > 0 && vs[0] == TopView(cache, states[i].lines)
    requires Names(vs) + [cache.bottom.name] == cache.names && Shapes(vs) == cache.shapes
    requires res == Lookup(vs, cache.bottom, reqs[i].addr) && res.hitLevel in cache.names
    ensures AnswersRecorded(cache, reqs, i + 1, history + [res], views + [vs], states + [st])
  {
    var history', views', states' := history + [res], views + [vs], states + [st];
    forall j | 0 <= j < i + 1
      ensures && AllWellFormed(views'[j]) && |views'[j]| > 0 && views'[j][0] == TopView(cache, states'[j].lines)
              && Names(views'[j]) + [cache.bottom.name] == cache.names && Shapes(views'[j]) == cache.shapes
              && history'[j] == Lookup(views'[j], cache.bottom, reqs[j].addr)
              && history'[j].hitLevel in cache.names
    {
      if j < i {
        assert views'[j] == views[j] && states'[j] == states[j] && history'[j] == history[j];
      }
    }
  }

  lemma {:induction false} ColdSnoc(cache: Cache, reqs: seq<Request>, i: nat, history: seq<AccessResult>,
                                    base: seq<Request>, res: AccessResult)
    requires i < |reqs| && |history| == i && ColdRecorded(cache, reqs, i, history, base)
    requires Untouched(cache.shapes, Addrs(base + reqs[..i]), reqs[i].addr) ==> res == ColdAnswer(cache)
    ensures ColdRecorded(cache, reqs, i + 1, history + [res], base)
  {
    var history' := history + [res];
    forall j | 0 <= j < i + 1
      ensures Untouched(cache.shapes, Addrs(base + reqs[..j]), reqs[j].addr) ==> history'[j] == ColdAnswer(cache)
    {
      if j < i {
        assert history'[j] == history[j];
      }
    }
  }

  lemma {:induction false} StepsSnoc(cache: Cache, reqs: seq<Request>, i: nat, states: seq<LevelState>, st: LevelState)
    requires i < |reqs| && |states| == i + 1 && StepsRecorded(cache, reqs, i, states)
    requires AccessStep(cache.numSets, cache.blockSize, states[i], st, reqs[i].addr, reqs[i].Write?)
    ensures StepsRecorded(cache, reqs, i + 1, states + [st])
  {
    var states' := states + [st];
    forall j | 0 <= j < i + 1
      ensures AccessStep(cache.numSets, cache.blockSize, states'[j], states'[j + 1], reqs[j].addr, reqs[j].Write?)
    {
      if j < i {
        assert states'[j] == states[j] && states'[j + 1] == states[j + 1];
      }
    }
  }

  /** The hierarchies `views` met by requests start, start + 1, ... of the top
      level are every level's state as the journals `logs` record it at that
      request. */
  ghost predicate Chained(shapes: seq<LevelView>, logs: seq<seq<LevelState>>, views: seq<seq<LevelView>>, start: nat)
  {
    forall j | 0 <= j < |views| :: ChainedAt(shapes, logs, views[j], start + j)
  }

  /** `vs` is the hierarchy the journals `logs` record at request n, when
      every level had a state by then. */
  ghost predicate ChainedAt(shapes: seq<LevelView>, logs: seq<seq<LevelState>>, vs: seq<LevelView>, n: nat)
  {
    |ChainAt(logs, n)| == |logs| && vs == Hierarchy(shapes, ChainAt(logs, n))
  }

  /** Journals that only grew still record the hierarchies met before, and
      the hierarchy met by the next request is added to them. */
  lemma {:induction false} ChainedSnoc(shapes: seq<LevelView>, logs: seq<seq<LevelState>>, logs': seq<seq<LevelState>>,
                                       views: seq<seq<LevelView>>, start: nat, vs: seq<LevelView>)
    requires Chained(shapes, logs, views, start) && Extends(logs, logs')
    requires ChainedAt(shapes, logs, vs, start + |views|)
    ensures Chained(shapes, logs', views + [vs], start)
  {
    var views' := views + [vs];
    forall j | 0 <= j < |views'|
      ensures ChainedAt(shapes, logs', views'[j], start + j)
    {
      if j < |views| {
        assert views'[j] == views[j] && ChainedAt(shapes, logs, views[j], start + j);
      }
      ChainAtExtends(logs, logs', start + j);
    }
  }

  /** A Load of `addr` from the top level, which answers as Lookup does on
      the hierarchy as it was and takes the top level one AccessStep further;
      the hierarchy it met joins those `views` the journals record. */
  method LoadLogged(cache: Cache, addr: nat, ghost views: seq<seq<LevelView>>, ghost start: nat) returns (res: AccessResult)
    requires cache.Valid() && cache.Journaled()
    requires Chained(cache.shapes, cache.Logs(), views, start) && |cache.received| == start + |views|
    modifies cache, cache.Repr
    ensures cache.Valid() && cache.Journaled()
    ensures Chained(cache.shapes, cache.Logs(), views + [old(cache.Views())], start)
    ensures cache.received == old(cache.received) + [Read(addr)]
    ensures res == Lookup(old(cache.Views()), cache.bottom, addr)
    ensures AccessStep(cache.numSets, cache.blockSize, old(cache.State()), cache.State(), addr, false)
  {
    ghost var vs, logs := cache.Views(), cache.Logs();
    cache.CurrentChain();
    assert ChainedAt(cache.shapes, logs, vs, start + |views|);
    res := cache.Load(addr);
    ChainedSnoc(cache.shapes, logs, cache.Logs(), views, start, vs);
  }

  /** Access i of a run of Loads: its answer, the hierarchy it met and the
      state it left are appended to the record. */
  method LoadAt(cache: Cache, addrs: seq<nat>, i: nat, history: seq<AccessResult>,
                ghost views: seq<seq<LevelView>>, ghost states: seq<LevelState>, ghost base: seq<Request>)
    returns (history': seq<AccessResult>, ghost views': seq<seq<LevelView>>, ghost states': seq<LevelState>)
    requires cache.Valid() && cache.Journaled() && i < |addrs|
    requires Recorded(cache, Reads(addrs), i, history, views, states, cache.received, base)
    requires Chained(cache.shapes, cache.Logs(), views, |base|)
    requires states[i] == cache.State()
    modifies cache, cache.Repr
    ensures cache.Valid() && cache.Journaled()
    ensures Recorded(cache, Reads(addrs), i + 1, history', views', states', cache.received, base)
    ensures Chained(cache.shapes, cache.Logs(), views', |base|)
    ensures states'[i + 1] == cache.State()
    ensures states'[0] == states[0] && views'[i] == old(cache.Views())
    ensures i > 0 ==> views'[0] == views[0]
  {
    ghost var vs := cache.Views();
    ghost var received := cache.received;
    Answerable(cache, addrs[i]);
    assert |received| == |base| + |views|;
    var res := LoadLogged(cache, addrs[i], views, |base|);
    RecordedSnoc(cache, Reads(addrs), i, history, views, states, received, base, res, vs, cache.State());
    history' := history + [res];
    views' := views + [vs];
    states' := states + [cache.State()];
  }

  /** Load every address of `addrs` from the top level, in order, recording
      each answer. Answer i is what Lookup gives on the hierarchy as it was
      before access i, a hierarchy of the same names, geometry and latencies;
      it is the memory's, at the memory's latency plus every level's, when
      the Loads before it cannot have brought its block into any level; and
      the top level steps through one AccessStep per address. */
  method RunLoads(cache: Cache, addrs: seq<nat>)
    returns (history: seq<AccessResult>, ghost views: seq<seq<LevelView>>, ghost states: seq<LevelState>)
    requires cache.Valid() && cache.Journaled()
    modifies cache, cache.Repr
    ensures cache.Valid() && cache.Journaled()
    ensures Journal(cache.shapes, cache.Logs(), cache.received)
    ensures Chained(cache.shapes, cache.Logs(), views, |old(cache.received)|)
    ensures cache.received == old(cache.received) + Reads(addrs)
    ensures |history| == |addrs| && |views| == |addrs| && |states| == |addrs| + 1
    ensures states[0] == old(cache.State()) && states[|addrs|] == cache.State()
    ensures |addrs| > 0 ==> views[0] == old(cache.Views())
    ensures forall i | 0 <= i < |addrs| ::
              && AllWellFormed(views[i]) && |views[i]| > 0 && views[i][0] == TopView(cache, states[i].lines)
              && Names(views[i]) + [cache.bottom.name] == cache.names && Shapes(views[i]) == cache.shapes
              && history[i] == Lookup(views[i], cache.bottom, addrs[i])
              && history[i].hitLevel in cache.names
    ensures forall i | 0 <= i < |addrs| ::
              Untouched(cache.shapes, Addrs(old(cache.received) + Reads(addrs)[..i]), addrs[i]) ==>
                history[i] == ColdAnswer(cache)
    ensures forall i | 0 <= i < |addrs| ::
              AccessStep(cache.numSets, cache.blockSize, states[i], states[i + 1], addrs[i], false)
  {
    ghost var base, views0 := cache.received, cache.Views();
    history, views, states := [], [], [cache.State()];
    for i := 0 to |addrs|
      invariant cache.Valid() && Recorded(cache, Reads(addrs), i, history, views, states, cache.received, base)
      invariant cache.Journaled() && Chained(cache.shapes, cache.Logs(), views, |base|)
      invariant states[0] == old(cache.State()) && states[i] == cache.State()
      invariant if i == 0 then cache.Views() == views0 else views[0] == views0
    {
      history, views, states := LoadAt(cache, addrs, i, history, views, states, base);
    }
    assert Reads(addrs)[..|addrs|] == Reads(addrs);
    cache.JournalOf();
  }

  /** Run a trace against a hierarchy built for it (levels `top` then `lower`,
      over a memory named `memName` of latency `memLatency`): nothing is built
      and nothing runs when the trace is empty; otherwise every operation, in
      order, is dispatched to Load or Store of the one top level, and its
      answer and address are recorded. The hierarchy built is returned: it
      has received exactly the trace's calls, answer i is Lookup's on the
      hierarchy it met, which kept the configured names, geometry and
      latencies, and the top level took one AccessStep per operation. The
      first answer, and every answer whose block the calls before it cannot
      have brought into any level, is the memory's after every latency. */
  method RunTraceSimulation(ops: seq<TraceOp>, top: LevelConfig, lower: seq<LevelConfig>,
                            memName: string, memLatency: nat)
    returns (system: Cache?, history: seq<AccessResult>, traceAddrs: seq<nat>,
             ghost views: seq<seq<LevelView>>, ghost states: seq<LevelState>)
    requires ValidConfig(top) && forall i | 0 <= i < |lower| :: ValidConfig(lower[i])
    ensures system == null <==> ops == []
    ensures |history| == |ops| && |traceAddrs| == |ops|
    ensures forall i | 0 <= i < |ops| :: traceAddrs[i] == ops[i].addr
    ensures ops != [] ==>
              history[0] == AccessResult(memName, memLatency + ConfigLatency([top] + lower))
    ensures system != null ==>
              && system.Valid() && system.received == Requests(ops)
              && system.Journaled() && Journal(system.shapes, system.Logs(), system.received)
              && Chained(system.shapes, system.Logs(), views, 0)
              && system.bottom == MainMemory(memName, memLatency)
              && system.shapes == Shapes(ConfigViews([top] + lower))
              && system.names == [top.name] + Names(ConfigViews(lower)) + [memName]
              && |views| == |ops| && |states| == |ops| + 1
              && views[0] == ConfigViews([top] + lower) && states[|ops|] == system.State()
    ensures system != null ==> forall i | 0 <= i < |ops| ::
              && AllWellFormed(views[i]) && |views[i]| > 0 && views[i][0] == TopView(system, states[i].lines)
              && Shapes(views[i]) == Shapes(ConfigViews([top] + lower))
              && history[i] == Lookup(views[i], system.bottom, ops[i].addr)
              && history[i].hitLevel in system.names
    ensures system != null ==> forall i | 0 <= i < |ops| ::
              Untouched(system.shapes, Addrs(Requests(ops)[..i]), ops[i].addr) ==>
                history[i] == AccessResult(memName, memLatency + ConfigLatency([top] + lower))
    ensures system != null ==> forall i | 0 <= i < |ops| ::
              AccessStep(system.numSets, system.blockSize, states[i], states[i + 1], ops[i].addr, ops[i].kind != 'L')
  {
    if ops == [] {
      return null, [], [], [], [];
    }
    var memory := MainMemory(memName, memLatency);
    var cacheSystem := BuildSystem(top, lower, memory);
    FreshIsCold([top] + lower, memory, ops[0].addr);
    ghost var cold := AccessResult(memName, memLatency + ConfigLatency([top] + lower));
    assert Lookup(cacheSystem.Views(), memory, ops[0].addr) == cold == ColdAnswer(cacheSystem);
    history, traceAddrs, views, states := RunOps(cacheSystem, ops);
    assert history[0] == cold;
    assert forall i | 0 <= i <= |ops| :: [] + Requests(ops)[..i] == Requests(ops)[..i];
    system := cacheSystem;
  }

  /** The hierarchy a trace runs against: levels `top` then `lower` over
      `memory`, freshly built, journaled and with nothing received, holding
      nothing and keeping the configured names, geometry and latencies. */
  method BuildSystem(top: LevelConfig, lower: seq<LevelConfig>, memory: MainMemory) returns (c: Cache)
    requires ValidConfig(top) && forall i | 0 <= i < |lower| :: ValidConfig(lower[i])
    ensures c.Valid() && c.Journaled() && fresh(c.Repr) && c.received == []
    ensures c.Views() == ConfigViews([top] + lower) && c.bottom == memory
    ensures c.shapes == Shapes(ConfigViews([top] + lower))
    ensures c.names == [top.name] + Names(ConfigViews(lower)) + [memory.name]
    ensures SumLatency(c.shapes) == ConfigLatency([top] + lower)
  {
    c := new Cache(top, lower, memory);
    c.NamesMatch();
    c.ShapesMatch();
    assert Names(ConfigViews([top] + lower)) == [top.name] + Names(ConfigViews(lower));
    ConfigSumLatency([top] + lower);
    SumLatencyShapes(ConfigViews([top] + lower));
  }

  /** One operation of a trace: 'L' runs a Load of the top level, any other
      type a Store; the answer is Lookup's on the hierarchy as it was, and the
      top level takes one AccessStep, a write for a Store. */
  method Step(cache: Cache, op: TraceOp, ghost views: seq<seq<LevelView>>, ghost start: nat) returns (res: AccessResult)
    requires cache.Valid() && cache.Journaled()
    requires Chained(cache.shapes, cache.Logs(), views, start) && |cache.received| == start + |views|
    modifies cache, cache.Repr
    ensures cache.Valid() && cache.Journaled()
    ensures Chained(cache.shapes, cache.Logs(), views + [old(cache.Views())], start)
    ensures cache.received == old(cache.received) + [Dispatch(op)]
    ensures res == Lookup(old(cache.Views()), cache.bottom, op.addr)
    ensures AccessStep(cache.numSets, cache.blockSize, old(cache.State()), cache.State(), op.addr, op.kind != 'L')
  {
    ghost var vs, logs := cache.Views(), cache.Logs();
    cache.CurrentChain();
    assert ChainedAt(cache.shapes, logs, vs, start + |views|);
    if op.kind == 'L' {
      res := cache.Load(op.addr);
    } else {
      res := cache.Store(op.addr);
    }
    ChainedSnoc(cache.shapes, logs, cache.Logs(), views, start, vs);
  }

  /** Operation i of a trace: it is dispatched, and its answer, the
      hierarchy it met and the state it left are appended to the record. */
  method StepAt(cache: Cache, ops: seq<TraceOp>, i: nat, history: seq<AccessResult>,
                ghost views: seq<seq<LevelView>>, ghost states: seq<LevelState>, ghost base: seq<Request>)
    returns (history': seq<AccessResult>, ghost views': seq<seq<LevelView>>, ghost states': seq<LevelState>)
    requires cache.Valid() && cache.Journaled() && i < |ops|
    requires Recorded(cache, Requests(ops), i, history, views, states, cache.received, base)
    requires Chained(cache.shapes, cache.Logs(), views, |base|)
    requires states[i] == cache.State()
    modifies cache, cache.Repr
    ensures cache.Valid() && cache.Journaled()
    ensures Recorded(cache, Requests(ops), i + 1, history', views', states', cache.received, base)
    ensures Chained(cache.shapes, cache.Logs(), views', |base|)
    ensures states'[i + 1] == cache.State()
    ensures states'[0] == states[0] && views'[i] == old(cache.Views())
    ensures i > 0 ==> views'[0] == views[0]
  {
    ghost var vs := cache.Views();
    ghost var received := cache.received;
    Answerable(cache, ops[i].addr);
    assert |received| == |base| + |views|;
    var res := Step(cache, ops[i], views, |base|);
    ghost var req := Requests(ops)[i];
    assert req.addr == ops[i].addr && req.Write? == (ops[i].kind != 'L');
    RecordedSnoc(cache, Requests(ops), i, history, views, states, received, base, res, vs, cache.State());
    history' := history + [res];
    views' := views + [vs];
    states' := states + [cache.State()];
  }

  /** Recording the address of operation i after those of the operations
      before it records the addresses of the operations up to i. */
  lemma AddressSnoc(traceAddrs: seq<nat>, ops: seq<TraceOp>, i: nat)
    requires |traceAddrs| == i < |ops| && forall j | 0 <= j < i :: traceAddrs[j] == ops[j].addr
    ensures forall j | 0 <= j < i + 1 :: (traceAddrs + [ops[i].addr])[j] == ops[j].addr
  {
  }

  /** The record of a whole trace, stated operation by operation. */
  lemma TraceRecorded(cache: Cache, ops: seq<TraceOp>, history: seq<AccessResult>,
                      views: seq<seq<LevelView>>, states: seq<LevelState>, received: seq<Request>, base: seq<Request>)
    requires Recorded(cache, Requests(ops), |ops|, history, views, states, received, base)
    ensures received == base + Requests(ops)
    ensures |history| == |ops| && |views| == |ops| && |states| == |ops| + 1
    ensures forall i | 0 <= i < |ops| ::
              && AllWellFormed(views[i]) && |views[i]| > 0 && views[i][0] == TopView(cache, states[i].lines)
              && Names(views[i]) + [cache.bottom.name] == cache.names && Shapes(views[i]) == cache.shapes
              && history[i] == Lookup(views[i], cache.bottom, ops[i].addr)
              && history[i].hitLevel in cache.names
    ensures forall i | 0 <= i < |ops| ::
              Untouched(cache.shapes, Addrs(base + Requests(ops)[..i]), ops[i].addr) ==>
                history[i] == ColdAnswer(cache)
    ensures forall i | 0 <= i < |ops| ::
              AccessStep(cache.numSets, cache.blockSize, states[i], states[i + 1], ops[i].addr, ops[i].kind != 'L')
  {
    assert Requests(ops)[..|ops|] == Requests(ops);
    forall i | 0 <= i < |ops|
      ensures Requests(ops)[i].addr == ops[i].addr && Requests(ops)[i].Write? == (ops[i].kind != 'L')
    {
    }
  }

  /** The loop of a trace run: each operation, in order, is dispatched to the
      top level, and its answer and address are recorded. The facts of each
      answer and step are those RunLoads states, for the trace's calls. */
  method RunOps(cache: Cache, ops: seq<TraceOp>)
    returns (history: seq<AccessResult>, traceAddrs: seq<nat>,
             ghost views: seq<seq<LevelView>>, ghost states: seq<LevelState>)
    requires cache.Valid() && cache.Journaled()
    modifies cache, cache.Repr
    ensures cache.Valid() && cache.Journaled()
    ensures Journal(cache.shapes, cache.Logs(), cache.received)
    ensures Chained(cache.shapes, cache.Logs(), views, |old(cache.received)|)
    ensures cache.received == old(cache.received) + Requests(ops)
    ensures |history| == |ops| && |traceAddrs| == |ops| && |views| == |ops| && |states| == |ops| + 1
    ensures forall i | 0 <= i < |ops| :: traceAddrs[i] == ops[i].addr
    ensures states[0] == old(cache.State()) && states[|ops|] == cache.State()
    ensures ops != [] ==> views[0] == old(cache.Views())
    ensures forall i | 0 <= i < |ops| ::
              && AllWellFormed(views[i]) && |views[i]| > 0 && views[i][0] == TopView(cache, states[i].lines)
              && Names(views[i]) + [cache.bottom.name] == cache.names && Shapes(views[i]) == cache.shapes
              && history[i] == Lookup(views[i], cache.bottom, ops[i].addr)
              && history[i].hitLevel in cache.names
    ensures forall i | 0 <= i < |ops| ::
              Untouched(cache.shapes, Addrs(old(cache.received) + Requests(ops)[..i]), ops[i].addr) ==>
                history[i] == ColdAnswer(cache)
    ensures forall i | 0 <= i < |ops| ::
              AccessStep(cache.numSets, cache.blockSize, states[i], states[i + 1], ops[i].addr, ops[i].kind != 'L')
  {
    ghost var base, views0 := cache.received, cache.Views();
    history, traceAddrs, views, states := [], [], [], [cache.State()];
    for i := 0 to |ops|
      invariant cache.Valid() && Recorded(cache, Requests(ops), i, history, views, states, cache.received, base)
      invariant cache.Journaled() && Chained(cache.shapes, cache.Logs(), views, |base|)
      invariant |traceAddrs| == i && forall j | 0 <= j < i :: traceAddrs[j] == ops[j].addr
      invariant states[0] == old(cache.State()) && states[i] == cache.State()
      invariant if i == 0 then cache.Views() == views0 else views[0] == views0
    {
      history, views, states := StepAt(cache, ops, i, history, views, states, base);
      AddressSnoc(traceAddrs, ops, i);
      traceAddrs := traceAddrs + [ops[i].addr];
    }
    TraceRecorded(cache, ops, history, views, states, cache.received, base);
    cache.JournalOf();
  }
}
