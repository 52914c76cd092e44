/** The hierarchy as a value: what each cache level holds, and which level
    answers an access. A Load or Store on the top level reports the first level
    (from the top) whose lines hold the address's block, or the terminal memory
    when none does, and the cycles of every level it passed through on the way. */
module Levels {
  import opened Types

  /** One cache level as seen from outside: its name, geometry, hit latency and
      the contents of its `sets x ways` lines. */
  datatype LevelView = LevelView(name: string, sets: nat, ways: nat, blockSize: nat,
                                 hitLatency: nat, lines: seq<seq<Line>>)

  predicate WellFormed(v: LevelView)
  {
    && v.sets > 0 && v.ways > 0 && v.blockSize > 0
    && |v.lines| == v.sets
    && (forall s | 0 <= s < v.sets :: |v.lines[s]| == v.ways)
  }

  predicate AllWellFormed(levels: seq<LevelView>)
  {
    forall i | 0 <= i < |levels| :: WellFormed(levels[i])
  }

  /** The block of `addr` is held by a valid line of level `v`. */
  predicate Resident(v: LevelView, addr: nat)
    requires WellFormed(v)
  {
    Holds(v.lines[SetIndex(addr, v.sets, v.blockSize)], Tag(addr, v.sets, v.blockSize))
  }

  /** The answer to an access issued at the top of `levels`: a resident level
      answers with its own name and hit latency, otherwise the access goes one
      level down and this level's hit latency is added on the way back. No
      access costs more than one that no level holds: the memory's latency
      plus every level's hit latency. */
  function Lookup(levels: seq<LevelView>, mem: MainMemory, addr: nat): (r: AccessResult)
    requires AllWellFormed(levels)
    ensures r.totalCycles <= mem.latency + SumLatency(levels)
  {
    if levels == [] then mem.Load(addr)
    else if Resident(levels[0], addr) then AccessResult(levels[0].name, levels[0].hitLatency)
    else
      var below := Lookup(levels[1..], mem, addr);
      AccessResult(below.hitLevel, below.totalCycles + levels[0].hitLatency)
  }

  /** The index of the nearest level holding `addr`; |levels| when none does. */
  function FirstResident(levels: seq<LevelView>, addr: nat): (k: nat)
    requires AllWellFormed(levels)
    ensures k <= |levels|
    ensures k < |levels| ==> Resident(levels[k], addr)
    ensures forall j | 0 <= j < k :: !Resident(levels[j], addr)
  {
    if levels == [] then 0
    else if Resident(levels[0], addr) then 0
    else 1 + FirstResident(levels[1..], addr)
  }

  function SumLatency(levels: seq<LevelView>): nat
  {
    if levels == [] then 0 else levels[0].hitLatency + SumLatency(levels[1..])
  }

  function Names(levels: seq<LevelView>): (names: seq<string>)
    ensures |names| == |levels|
    ensures forall i | 0 <= i < |levels| :: names[i] == levels[i].name
  {
    if levels == [] then [] else [levels[0].name] + Names(levels[1..])
  }

  /** Lookup against an independent description: the access is answered by the
      nearest resident level k, and costs the hit latencies of levels 0..k; when
      no level holds the block, the memory answers and every level's hit
      latency is added to the memory latency. */
  lemma {:induction false} LookupIsFirstResident(levels: seq<LevelView>, mem: MainMemory, addr: nat)
    requires AllWellFormed(levels)
    ensures var k := FirstResident(levels, addr);
            Lookup(levels, mem, addr) ==
              if k < |levels| then AccessResult(levels[k].name, SumLatency(levels[..k + 1]))
              else AccessResult(mem.name, mem.latency + SumLatency(levels))
  {
    if levels != [] {
      var k := FirstResident(levels, addr);
      if k == 0 {
        assert SumLatency(levels[..1]) == levels[0].hitLatency + SumLatency([]);
      } else {
        var rest := levels[1..];
        LookupIsFirstResident(rest, mem, addr);
        assert FirstResident(rest, addr) == k - 1;
        if k < |levels| {
          assert levels[..k + 1][1..] == rest[..k];
          assert SumLatency(levels[..k + 1]) == levels[0].hitLatency + SumLatency(rest[..k]);
        } else {
          assert SumLatency(levels) == levels[0].hitLatency + SumLatency(rest);
        }
      }
    }
  }

  /** A cold access (resident nowhere) reports the memory and the sum of all
      latencies. */
  lemma ColdAccess(levels: seq<LevelView>, mem: MainMemory, addr: nat)
    requires AllWellFormed(levels)
    requires forall i | 0 <= i < |levels| :: !Resident(levels[i], addr)
    ensures Lookup(levels, mem, addr) == AccessResult(mem.name, mem.latency + SumLatency(levels))
  {
    LookupIsFirstResident(levels, mem, addr);
  }

  /** The reported level is one of the hierarchy's names, and the cycles are
      at least the top level's hit latency. */
  lemma {:induction false} LookupHitLevelKnown(levels: seq<LevelView>, mem: MainMemory, addr: nat)
    requires AllWellFormed(levels)
    ensures Lookup(levels, mem, addr).hitLevel in Names(levels) + [mem.name]
    ensures levels != [] ==> Lookup(levels, mem, addr).totalCycles >= levels[0].hitLatency
  {
    if levels != [] && !Resident(levels[0], addr) {
      LookupHitLevelKnown(levels[1..], mem, addr);
    }
  }

  /** A level built from a configuration starts with every line invalid. */
  function EmptyLines(sets: nat, ways: nat): (lines: seq<seq<Line>>)
    ensures |lines| == sets
    ensures forall s | 0 <= s < sets :: |lines[s]| == ways
    ensures forall s, w | 0 <= s < sets && 0 <= w < ways :: lines[s][w] == Line(false, false, 0)
  {
    seq(sets, _ => seq(ways, _ => Line(false, false, 0)))
  }

  predicate AllEmpty(levels: seq<LevelView>)
  {
    forall i | 0 <= i < |levels| :: levels[i].lines == EmptyLines(levels[i].sets, levels[i].ways)
  }

  /** Nothing is resident in levels that hold no valid line. */
  lemma EmptyHoldsNothing(levels: seq<LevelView>, addr: nat)
    requires AllWellFormed(levels) && AllEmpty(levels)
    ensures forall i | 0 <= i < |levels| :: !Resident(levels[i], addr)
  {
    forall i | 0 <= i < |levels|
      ensures !Resident(levels[i], addr)
    {
      var v := levels[i];
      var row := v.lines[SetIndex(addr, v.sets, v.blockSize)];
      assert forall w | 0 <= w < |row| :: !row[w].valid;
    }
  }

  // ---------------------------------------------------------------------------
  // What requests can have brought into the hierarchy

  /** A level without its lines: name, geometry and hit latency, which no
      access changes. */
  function Shape(v: LevelView): LevelView
  {
    v.(lines := [])
  }

  function Shapes(levels: seq<LevelView>): (shapes: seq<LevelView>)
    ensures |shapes| == |levels|
    ensures forall i | 0 <= i < |levels| :: shapes[i] == Shape(levels[i])
  {
    seq(|levels|, i requires 0 <= i < |levels| => Shape(levels[i]))
  }

  /** A level's shape carries its hit latency. */
  lemma {:induction false} SumLatencyShapes(levels: seq<LevelView>)
    ensures SumLatency(Shapes(levels)) == SumLatency(levels)
  {
    if levels != [] {
      assert Shapes(levels)[1..] == Shapes(levels[1..]);
      SumLatencyShapes(levels[1..]);
    }
  }

  /** The addresses a log of requests names. */
  function Addrs(reqs: seq<Request>): set<nat>
  {
    set i | 0 <= i < |reqs| :: reqs[i].addr
  }

  /** The start addresses of the blocks (of `blockSize` bytes) of `addrs`:
      the addresses a level writes back when it evicts a dirty block it
      fetched for one of them. */
  function Aligned(addrs: set<nat>, blockSize: nat): set<nat>
    requires blockSize > 0
  {
    set a | a in addrs :: a - a % blockSize
  }

  /** No level of `levels` can hold the block of `x` when the top level has
      only been asked for `addrs`: at each level no requested address shares
      `x`'s block, and a level passes down only what it was asked for and the
      start addresses of the blocks it holds. */
  predicate Untouched(levels: seq<LevelView>, addrs: set<nat>, x: nat)
  {
    levels == [] ||
      (&& levels[0].blockSize > 0
       && (forall a | a in addrs :: a / levels[0].blockSize != x / levels[0].blockSize)
       && Untouched(levels[1..], addrs + Aligned(addrs, levels[0].blockSize), x))
  }

  lemma AddrsSnoc(reqs: seq<Request>, r: Request)
    ensures Addrs(reqs + [r]) == Addrs(reqs) + {r.addr}
  {
    var reqs' := reqs + [r];
    assert reqs'[|reqs|].addr == r.addr;
    forall a | a in Addrs(reqs)
      ensures a in Addrs(reqs')
    {
      var i :| 0 <= i < |reqs| && reqs[i].addr == a;
      assert reqs'[i].addr == a;
    }
  }

  /** A log each of whose addresses lies in `within` names nothing else. */
  lemma AddrsWithin(reqs: seq<Request>, within: set<nat>)
    requires forall i | 0 <= i < |reqs| :: reqs[i].addr in within
    ensures Addrs(reqs) <= within
  {
  }

  lemma AlignedMember(addrs: set<nat>, blockSize: nat, a: nat)
    requires blockSize > 0 && a in addrs
    ensures a - a % blockSize in Aligned(addrs, blockSize)
  {
  }

  lemma AlignedMono(addrs: set<nat>, more: set<nat>, blockSize: nat)
    requires blockSize > 0 && addrs <= more
    ensures Aligned(addrs, blockSize) <= Aligned(more, blockSize)
  {
  }

  /** Two addresses with the same block start are in the same block. */
  lemma SameBlock(a: nat, x: nat, blockSize: nat)
    requires blockSize > 0 && a - a % blockSize == x - x % blockSize
    ensures a / blockSize == x / blockSize
  {
    MulDiv(a / blockSize, blockSize);
    MulDiv(x / blockSize, blockSize);
  }

  /** Fewer requests reach fewer blocks. */
  lemma {:induction false} UntouchedMono(levels: seq<LevelView>, addrs: set<nat>, more: set<nat>, x: nat)
    requires addrs <= more && Untouched(levels, more, x)
    ensures Untouched(levels, addrs, x)
  {
    if levels != [] {
      AlignedMono(addrs, more, levels[0].blockSize);
      UntouchedMono(levels[1..], addrs + Aligned(addrs, levels[0].blockSize),
                    more + Aligned(more, levels[0].blockSize), x);
    }
  }

  /** Block starts of a block size are their own block starts. */
  lemma AlignedFixed(addrs: set<nat>, blockSize: nat)
    requires blockSize > 0 && forall a | a in addrs :: a % blockSize == 0
    ensures Aligned(addrs, blockSize) == addrs
  {
    forall a | a in addrs
      ensures a in Aligned(addrs, blockSize)
    {
      AlignedMember(addrs, blockSize, a);
    }
  }

  /** In a hierarchy of one block size, requests for block starts none of
      which is in the block of `x` cannot bring that block into any level. */
  lemma {:induction false} UntouchedOneBlockSize(levels: seq<LevelView>, addrs: set<nat>, x: nat, blockSize: nat)
    requires blockSize > 0 && forall i | 0 <= i < |levels| :: levels[i].blockSize == blockSize
    requires forall a | a in addrs :: a % blockSize == 0 && a / blockSize != x / blockSize
    ensures Untouched(levels, addrs, x)
  {
    if levels != [] {
      AlignedFixed(addrs, blockSize);
      assert addrs + addrs == addrs;
      UntouchedOneBlockSize(levels[1..], addrs, x, blockSize);
    }
  }
}
