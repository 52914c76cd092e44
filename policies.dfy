/** Replacement policies: which way of a full set a cache level evicts. Each
    policy is told about hits (OnHit) and fills (OnFill) and is asked for a
    victim (GetVictim). LRU stamps ways with a per-set counter, FIFO keeps a
    circular pointer per set, Random draws a way. */
module Policies {
  import opened Types

  /** The lowest index holding a minimal value of a non-empty row of stamps. */
  function MinIndex(row: seq<nat>): (k: nat)
    requires |row| > 0
    ensures k < |row|
    ensures forall j | 0 <= j < |row| :: row[k] <= row[j]
    ensures forall j | 0 <= j < k :: row[k] < row[j]
  {
    if |row| == 1 then 0
    else
      var k := MinIndex(row[..|row| - 1]);
      if row[|row| - 1] < row[k] then |row| - 1 else k
  }

  /** A way whose stamp is strictly larger than every other stamp of the set is
      never the LRU victim of a set with two ways or more. */
  lemma NewestIsNotVictim(row: seq<nat>, w: nat)
    requires |row| >= 2 && w < |row|
    requires forall j | 0 <= j < |row| && j != w :: row[j] < row[w]
    ensures MinIndex(row) != w
  {
    var other := if w == 0 then 1 else 0;
    assert row[other] < row[w];
  }

  // ---------------------------------------------------------------------------
  // Policy state as a value

  /** The bookkeeping of a policy: LRU stamps per (set, way) and a counter per
      set; FIFO's pointer per set; nothing for Random. */
  datatype PolicyState =
    | LRUState(stamps: seq<seq<nat>>, counters: seq<nat>)
    | FIFOState(pointers: seq<nat>)
    | RandomState

  /** LRU: advance the set's counter and stamp way w with the new value. */
  function Touch(stamps: seq<seq<nat>>, counters: seq<nat>, s: nat, w: nat): PolicyState
    requires s < |stamps| && s < |counters| && w < |stamps[s]|
  {
    LRUState(stamps[s := stamps[s][w := counters[s] + 1]], counters[s := counters[s] + 1])
  }

  predicate InRange(p: PolicyState, s: nat, w: nat, ways: nat)
  {
    match p
    case LRUState(stamps, counters) => s < |stamps| && s < |counters| && w < |stamps[s]|
    case FIFOState(pointers) => s < |pointers| && ways > 0
    case RandomState => true
  }

  /** The state after a hit on way w of set s. */
  function AfterHit(p: PolicyState, s: nat, w: nat, ways: nat): PolicyState
    requires InRange(p, s, w, ways)
  {
    match p
    case LRUState(stamps, counters) => Touch(stamps, counters, s, w)
    case FIFOState(_) => p
    case RandomState => p
  }

  /** The state after a fill of way w of set s. */
  function AfterFill(p: PolicyState, s: nat, w: nat, ways: nat): PolicyState
    requires InRange(p, s, w, ways)
  {
    match p
    case LRUState(stamps, counters) => Touch(stamps, counters, s, w)
    case FIFOState(pointers) => FIFOState(pointers[s := (pointers[s] + 1) % ways])
    case RandomState => p
  }

  /** The invariant every policy keeps for a `sets x ways` cache: the shapes
      fit, an LRU stamp never exceeds its set's counter, a FIFO pointer is a way. */
  predicate Consistent(p: PolicyState, sets: nat, ways: nat)
  {
    match p
    case LRUState(stamps, counters) =>
      && |stamps| == sets && |counters| == sets
      && (forall s | 0 <= s < sets :: |stamps[s]| == ways)
      && (forall s, w | 0 <= s < sets && 0 <= w < ways :: stamps[s][w] <= counters[s])
    case FIFOState(pointers) =>
      && |pointers| == sets
      && (forall s | 0 <= s < sets :: ways > 0 ==> pointers[s] < ways)
    case RandomState => true
  }

  /** Hits and fills keep the invariant; afterwards, in LRU, the touched way
      carries the strictly largest stamp of its set, so with two ways or more it
      is not the next victim; in FIFO the pointer stays a way. */
  lemma {:induction false} StepsKeepConsistent(p: PolicyState, sets: nat, ways: nat, s: nat, w: nat)
    requires Consistent(p, sets, ways) && s < sets && w < ways
    ensures InRange(p, s, w, ways)
    ensures Consistent(AfterHit(p, s, w, ways), sets, ways)
    ensures Consistent(AfterFill(p, s, w, ways), sets, ways)
    ensures AfterHit(p, s, w, ways).LRUState? && ways >= 2 ==>
              MinIndex(AfterHit(p, s, w, ways).stamps[s]) != w
    ensures AfterFill(p, s, w, ways).LRUState? && ways >= 2 ==>
              MinIndex(AfterFill(p, s, w, ways).stamps[s]) != w
  {
    match p
    case LRUState(stamps, counters) =>
      var t := Touch(stamps, counters, s, w);
      var row := t.stamps[s];
      assert forall j | 0 <= j < ways && j != w :: row[j] == stamps[s][j] <= counters[s] < row[w];
      if ways >= 2 {
        NewestIsNotVictim(row, w);
      }
    case FIFOState(pointers) =>
    case RandomState =>
  }

  // ---------------------------------------------------------------------------
  // Least recently used

  class LRUPolicy {
    const numSets: nat
    const numWays: nat
    /** lastAccessTime[set, way] */
    const lastAccessTime: array2<nat>
    const setCounters: array<nat>
    /** The contents of lastAccessTime, row by row. */
    ghost var Stamps: seq<seq<nat>>

    ghost predicate Valid()
      reads this, lastAccessTime, setCounters
    {
      && lastAccessTime.Length0 == numSets && lastAccessTime.Length1 == numWays
      && setCounters.Length == numSets
      && |Stamps| == numSets
      && (forall s | 0 <= s < numSets :: |Stamps[s]| == numWays)
      && (forall s, w | 0 <= s < numSets && 0 <= w < numWays :: lastAccessTime[s, w] == Stamps[s][w])
      && Consistent(State(), numSets, numWays)
    }

    ghost function State(): PolicyState
      reads this, setCounters
    {
      LRUState(Stamps, setCounters[..])
    }

    /** Every stamp and every counter starts at 0. */
    constructor (sets: nat, ways: nat)
      ensures Valid() && fresh(lastAccessTime) && fresh(setCounters)
      ensures numSets == sets && numWays == ways
      ensures State() == LRUState(seq(sets, _ => seq(ways, _ => 0)), seq(sets, _ => 0))
    {
      numSets, numWays := sets, ways;
      lastAccessTime := new nat[sets, ways]((_, _) => 0);
      setCounters := new nat[sets](_ => 0);
      Stamps := seq(sets, _ => seq(ways, _ => 0));
    }

    method OnHit(s: nat, w: nat)
      requires Valid() && s < numSets && w < numWays
      modifies this, lastAccessTime, setCounters
      ensures Valid()
      ensures State() == AfterHit(old(State()), s, w, numWays)
    {
      StepsKeepConsistent(State(), numSets, numWays, s, w);
      setCounters[s] := setCounters[s] + 1;
      lastAccessTime[s, w] := setCounters[s];
      Stamps := Stamps[s := Stamps[s][w := setCounters[s]]];
    }

    method OnFill(s: nat, w: nat)
      requires Valid() && s < numSets && w < numWays
      modifies this, lastAccessTime, setCounters
      ensures Valid()
      ensures State() == AfterFill(old(State()), s, w, numWays)
    {
      StepsKeepConsistent(State(), numSets, numWays, s, w);
      setCounters[s] := setCounters[s] + 1;
      lastAccessTime[s, w] := setCounters[s];
      Stamps := Stamps[s := Stamps[s][w := setCounters[s]]];
    }

    /** The way of set s with the smallest stamp, the lowest such way on a tie.
        The scan starts from the largest 64-bit value, as the stamps are 64-bit:
        a stamp beyond it is never chosen. */
    method GetVictim(s: nat) returns (v: nat)
      requires Valid() && s < numSets
      ensures numWays > 0 ==> v < numWays
      ensures numWays > 0 && setCounters[s] <= UINT64_MAX ==> v == MinIndex(Stamps[s])
    {
      v := 0;
      var minTime := UINT64_MAX;
      ghost var row := Stamps[s];
      ghost var fits := setCounters[s] <= UINT64_MAX;
      var w := 0;
      while w < numWays
        invariant w <= numWays
        invariant v == 0 || v < w
        invariant fits && w == 0 ==> minTime == UINT64_MAX
        invariant fits && w > 0 ==> v == MinIndex(row[..w]) && minTime == row[v]
      {
        if lastAccessTime[s, w] < minTime {
          minTime := lastAccessTime[s, w];
          v := w;
        }
        if fits {
          assert row[w] <= UINT64_MAX;
          assert row[..w + 1][..w] == row[..w];
        }
        w := w + 1;
      }
      assert row[..numWays] == row;
    }
  }

  // ---------------------------------------------------------------------------
  // First in, first out

  class FIFOPolicy {
    const numSets: nat
    const numWays: nat
    /** The next victim of each set, a circular index. */
    const nextVictim: array<nat>

    ghost predicate Valid()
      reads nextVictim
    {
      nextVictim.Length == numSets && Consistent(State(), numSets, numWays)
    }

    ghost function State(): PolicyState
      reads nextVictim
    {
      FIFOState(nextVictim[..])
    }

    /** Every pointer starts at way 0. */
    constructor (sets: nat, ways: nat)
      ensures Valid() && fresh(nextVictim)
      ensures numSets == sets && numWays == ways
      ensures State() == FIFOState(seq(sets, _ => 0))
    {
      numSets, numWays := sets, ways;
      nextVictim := new nat[sets](_ => 0);
    }

    /** Hits do not matter to FIFO. */
    method OnHit(s: nat, w: nat)
    {
    }

    /** Advance the set's pointer; the way filled is not consulted. */
    method OnFill(s: nat, w: nat)
      requires Valid() && s < numSets && numWays > 0
      modifies nextVictim
      ensures Valid()
      ensures State() == AfterFill(old(State()), s, w, numWays)
    {
      nextVictim[s] := (nextVictim[s] + 1) % numWays;
    }

    method GetVictim(s: nat) returns (v: nat)
      requires Valid() && s < numSets
      ensures v == State().pointers[s]
      ensures numWays > 0 ==> v < numWays
    {
      v := nextVictim[s];
    }
  }

  // ---------------------------------------------------------------------------
  // Random

  /** The random source of the policy is not modelled: a victim is any way. */
  class RandomPolicy {
    const numSets: nat
    const numWays: nat

    constructor (sets: nat, ways: nat)
      ensures numSets == sets && numWays == ways
    {
      numSets, numWays := sets, ways;
    }

    method OnHit(s: nat, w: nat)
    {
    }

    method OnFill(s: nat, w: nat)
    {
    }

    /** A draw from [0, numWays - 1], the upper bound computed in 64-bit
        unsigned arithmetic (so with no ways it wraps to the largest value). */
    method GetVictim(s: nat) returns (v: nat)
      ensures numWays > 0 ==> v < numWays
      ensures v <= UINT64_MAX
    {
      var hi := if numWays > 0 then numWays - 1 else UINT64_MAX;
      if hi > UINT64_MAX {
        hi := UINT64_MAX;
      }
      v :| 0 <= v <= hi;
    }
  }

  // ---------------------------------------------------------------------------
  // The policy a cache level owns

  datatype PolicyKind = LRUKind | FIFOKind | RandomKind

  /** The state of a policy just built for a `sets x ways` cache: every stamp,
      counter and pointer 0. */
  function InitialState(kind: PolicyKind, sets: nat, ways: nat): PolicyState
  {
    match kind
    case LRUKind => LRUState(seq(sets, _ => seq(ways, _ => 0)), seq(sets, _ => 0))
    case FIFOKind => FIFOState(seq(sets, _ => 0))
    case RandomKind => RandomState
  }

  /** The kind of policy a state belongs to. */
  function KindOf(p: PolicyState): (kind: PolicyKind)
    ensures p.LRUState? <==> kind == LRUKind
    ensures p.FIFOState? <==> kind == FIFOKind
  {
    match p
    case LRUState(_, _) => LRUKind
    case FIFOState(_) => FIFOKind
    case RandomState => RandomKind
  }

  /** A fresh policy satisfies the invariant, and a fresh FIFO policy points
      every set at way 0. */
  lemma InitialStateConsistent(kind: PolicyKind, sets: nat, ways: nat)
    ensures Consistent(InitialState(kind, sets, ways), sets, ways)
    ensures KindOf(InitialState(kind, sets, ways)) == kind
    ensures kind == FIFOKind ==>
              forall s | 0 <= s < sets :: InitialState(kind, sets, ways).pointers[s] == 0
  {
  }

  datatype Policy = LRU(lru: LRUPolicy) | FIFO(fifo: FIFOPolicy) | Random(random: RandomPolicy)

  function Footprint(p: Policy): set<object>
  {
    match p
    case LRU(l) => {l, l.lastAccessTime, l.setCounters}
    case FIFO(f) => {f, f.nextVictim}
    case Random(r) => {r}
  }

  ghost predicate PolicyValid(p: Policy, sets: nat, ways: nat)
    reads Footprint(p)
  {
    match p
    case LRU(l) => l.Valid() && l.numSets == sets && l.numWays == ways
    case FIFO(f) => f.Valid() && f.numSets == sets && f.numWays == ways
    case Random(r) => r.numSets == sets && r.numWays == ways
  }

  ghost function StateOf(p: Policy): PolicyState
    reads Footprint(p)
  {
    match p
    case LRU(l) => l.State()
    case FIFO(f) => f.State()
    case Random(_) => RandomState
  }

  method NewPolicy(kind: PolicyKind, sets: nat, ways: nat) returns (p: Policy)
    ensures PolicyValid(p, sets, ways) && fresh(Footprint(p))
    ensures kind == LRUKind <==> p.LRU?
    ensures kind == FIFOKind <==> p.FIFO?
    ensures StateOf(p) == InitialState(kind, sets, ways)
  {
    match kind
    case LRUKind =>
      var l := new LRUPolicy(sets, ways);
      p := LRU(l);
    case FIFOKind =>
      var f := new FIFOPolicy(sets, ways);
      p := FIFO(f);
    case RandomKind =>
      var r := new RandomPolicy(sets, ways);
      p := Random(r);
  }

  method OnHit(p: Policy, sets: nat, ways: nat, s: nat, w: nat)
    requires PolicyValid(p, sets, ways) && s < sets && w < ways
    modifies Footprint(p)
    ensures PolicyValid(p, sets, ways)
    ensures InRange(old(StateOf(p)), s, w, ways)
    ensures StateOf(p) == AfterHit(old(StateOf(p)), s, w, ways)
  {
    StepsKeepConsistent(StateOf(p), sets, ways, s, w);
    match p
    case LRU(l) => l.OnHit(s, w);
    case FIFO(f) => f.OnHit(s, w);
    case Random(r) => r.OnHit(s, w);
  }

  method OnFill(p: Policy, sets: nat, ways: nat, s: nat, w: nat)
    requires PolicyValid(p, sets, ways) && s < sets && w < ways
    modifies Footprint(p)
    ensures PolicyValid(p, sets, ways)
    ensures InRange(old(StateOf(p)), s, w, ways)
    ensures StateOf(p) == AfterFill(old(StateOf(p)), s, w, ways)
  {
    StepsKeepConsistent(StateOf(p), sets, ways, s, w);
    match p
    case LRU(l) => l.OnFill(s, w);
    case FIFO(f) => f.OnFill(s, w);
    case Random(r) => r.OnFill(s, w);
  }

  /** The victim each policy promises: the oldest stamp (when the counters fit
      in 64 bits), the FIFO pointer, or any way. */
  ghost predicate IsVictim(p: PolicyState, s: nat, ways: nat, v: nat)
  {
    && v < ways
    && match p
       case LRUState(stamps, counters) =>
         s < |stamps| && s < |counters| && |stamps[s]| > 0 &&
         (counters[s] <= UINT64_MAX ==> v == MinIndex(stamps[s]))
       case FIFOState(pointers) => s < |pointers| && v == pointers[s]
       case RandomState => true
  }

  method GetVictim(p: Policy, sets: nat, ways: nat, s: nat) returns (v: nat)
    requires PolicyValid(p, sets, ways) && s < sets && ways > 0
    ensures IsVictim(StateOf(p), s, ways, v)
  {
    match p
    case LRU(l) => v := l.GetVictim(s);
    case FIFO(f) => v := f.GetVictim(s);
    case Random(r) => v := r.GetVictim(s);
  }
}
