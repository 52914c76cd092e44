/** Values shared by every level of the cache hierarchy: access results, the
    requests a level sends downward, cache lines, the terminal memory and the
    arithmetic that splits an address into (set, tag). */
module Types {

  /** What one access reports: the level that satisfied it and the cycles it took. */
  datatype AccessResult = AccessResult(hitLevel: string, totalCycles: nat)

  /** A request received by a level: a Load (read) or a Store (write) of an address. */
  datatype Request = Read(addr: nat) | Write(addr: nat)

  /** One way of one set: occupied, written since fill, block identity within its set. */
  datatype Line = Line(valid: bool, dirty: bool, tag: nat)

  /** The largest value of a 64-bit unsigned integer. */
  const UINT64_MAX: nat := 0xFFFF_FFFF_FFFF_FFFF

  /** Name and latency the terminal memory gets when none are given. */
  const DEFAULT_MEMORY_NAME: string := "MainMemory"
  const DEFAULT_MEMORY_LATENCY: nat := 100

  /** The terminal memory: every request is satisfied, at a fixed latency, and
      nothing changes. */
  datatype MainMemory = MainMemory(name: string, latency: nat) {

    function Load(addr: nat): (r: AccessResult)
      ensures r.hitLevel == name && r.totalCycles == latency
    {
      AccessResult(name, latency)
    }

    function Store(addr: nat): (r: AccessResult)
      ensures r.hitLevel == name && r.totalCycles == latency
    {
      AccessResult(name, latency)
    }
  }

  /** The memory answers every address alike, and a Store like a Load. */
  lemma MemoryIgnoresAddress(m: MainMemory, a: nat, b: nat)
    ensures m.Load(a) == m.Load(b) == m.Store(a) == m.Store(b)
    ensures m.Load(a) == AccessResult(m.name, m.latency)
  {
  }

  // ---------------------------------------------------------------------------
  // Address decomposition

  function SetIndex(addr: nat, sets: nat, blockSize: nat): (s: nat)
    requires sets > 0 && blockSize > 0
    ensures s < sets
  {
    (addr / blockSize) % sets
  }

  function Tag(addr: nat, sets: nat, blockSize: nat): nat
    requires sets > 0 && blockSize > 0
  {
    (addr / blockSize) / sets
  }

  /** The first address of the block that a line with `tag` in set `setIdx` holds. */
  function BlockAddress(tag: nat, setIdx: nat, sets: nat, blockSize: nat): nat
  {
    (tag * sets + setIdx) * blockSize
  }

  /** Rebuilding the address from its (set, tag) gives the start of its block:
      never more than the address, so a 64-bit address stays 64-bit. */
  lemma {:induction false} BlockAddressOfAddress(addr: nat, sets: nat, blockSize: nat)
    requires sets > 0 && blockSize > 0
    ensures BlockAddress(Tag(addr, sets, blockSize), SetIndex(addr, sets, blockSize), sets, blockSize)
            == addr - addr % blockSize
    ensures BlockAddress(Tag(addr, sets, blockSize), SetIndex(addr, sets, blockSize), sets, blockSize) <= addr
    ensures addr <= UINT64_MAX ==>
              BlockAddress(Tag(addr, sets, blockSize), SetIndex(addr, sets, blockSize), sets, blockSize) <= UINT64_MAX
  {
    var q := addr / blockSize;
    assert q == (q / sets) * sets + q % sets;
    assert addr == q * blockSize + addr % blockSize;
  }

  /** Decomposing a rebuilt block address gives back the set and the tag it was
      built from: the write-back address of an evicted line maps to that line. */
  lemma {:induction false} DecomposeBlockAddress(tag: nat, setIdx: nat, sets: nat, blockSize: nat)
    requires setIdx < sets && blockSize > 0
    ensures SetIndex(BlockAddress(tag, setIdx, sets, blockSize), sets, blockSize) == setIdx
    ensures Tag(BlockAddress(tag, setIdx, sets, blockSize), sets, blockSize) == tag
  {
    var q := tag * sets + setIdx;
    assert q * blockSize / blockSize == q by {
      MulDiv(q, blockSize);
    }
    assert q % sets == setIdx && q / sets == tag by {
      DivModUnique(q, sets, tag, setIdx);
    }
  }

  lemma MulDiv(q: nat, b: nat)
    requires b > 0
    ensures q * b / b == q
  {
    DivModUnique(q * b, b, q, 0);
  }

  lemma DivModUnique(n: nat, d: nat, q: nat, r: nat)
    requires d > 0 && r < d && n == q * d + r
    ensures n / d == q && n % d == r
  {
    MulMonotone(n / d, q, d);
    MulMonotone(q, n / d, d);
  }

  lemma MulMonotone(a: nat, b: nat, d: nat)
    ensures a < b ==> a * d + d <= b * d
  {
    if a < b {
      var k := b - a - 1;
      assert b * d == a * d + d + k * d;
    }
  }

  // ---------------------------------------------------------------------------
  // The ways of one set

  /** The lowest way whose line is valid and carries `tag`; |row| when none does. */
  function WayOf(row: seq<Line>, tag: nat): (k: nat)
    ensures k <= |row|
    ensures k < |row| ==> row[k].valid && row[k].tag == tag
    ensures forall j | 0 <= j < k :: !(row[j].valid && row[j].tag == tag)
  {
    if row == [] then 0
    else if row[0].valid && row[0].tag == tag then 0
    else 1 + WayOf(row[1..], tag)
  }

  lemma {:induction false} WayOfExact(row: seq<Line>, tag: nat, k: nat)
    requires k <= |row|
    requires forall j | 0 <= j < k :: !(row[j].valid && row[j].tag == tag)
    requires k < |row| ==> row[k].valid && row[k].tag == tag
    ensures WayOf(row, tag) == k
  {
    if row != [] && k > 0 {
      WayOfExact(row[1..], tag, k - 1);
    }
  }

  /** A valid line of the set holds `tag` (the lookup hits). */
  predicate Holds(row: seq<Line>, tag: nat)
  {
    WayOf(row, tag) < |row|
  }

  lemma HoldsIff(row: seq<Line>, tag: nat)
    ensures Holds(row, tag) <==> exists j | 0 <= j < |row| :: row[j].valid && row[j].tag == tag
  {
    if exists j | 0 <= j < |row| :: row[j].valid && row[j].tag == tag {
      var j :| 0 <= j < |row| && row[j].valid && row[j].tag == tag;
      assert WayOf(row, tag) <= j;
    }
  }

  /** The lowest invalid way; |row| when every way is valid. */
  function FirstInvalid(row: seq<Line>): (k: nat)
    ensures k <= |row|
    ensures k < |row| ==> !row[k].valid
    ensures forall j | 0 <= j < k :: row[j].valid
  {
    if row == [] then 0
    else if !row[0].valid then 0
    else 1 + FirstInvalid(row[1..])
  }

  predicate Full(row: seq<Line>)
  {
    FirstInvalid(row) == |row|
  }

  /** No two valid lines of one set carry the same tag. */
  predicate NoDuplicateTags(row: seq<Line>)
  {
    forall i, j | 0 <= i < j < |row| :: row[i].valid && row[j].valid ==> row[i].tag != row[j].tag
  }

  /** The valid lines of a set are ways 0..k-1: fills take the lowest invalid way
      and a line is never invalidated. */
  predicate ValidPrefix(row: seq<Line>)
  {
    forall i, j | 0 <= i < j < |row| :: row[j].valid ==> row[i].valid
  }

  predicate WellFormedSet(row: seq<Line>)
  {
    NoDuplicateTags(row) && ValidPrefix(row)
  }

  /** Every line valid in `before` is still valid in `after`. */
  predicate NoLineInvalidated(before: seq<Line>, after: seq<Line>)
  {
    |before| == |after| && forall j | 0 <= j < |before| :: before[j].valid ==> after[j].valid
  }

  /** The row a fill leaves: way `w` valid, clean, holding `tag`, the rest as before. */
  function FillRow(row: seq<Line>, w: nat, tag: nat): seq<Line>
    requires w < |row|
  {
    row[w := Line(true, false, tag)]
  }

  /** A fill of a tag the set does not hold keeps the set well formed, makes the
      tag resident in exactly way w, and invalidates nothing; when it takes the
      lowest invalid way, the valid lines stay a prefix. */
  lemma {:induction false} FillKeepsWellFormed(row: seq<Line>, w: nat, tag: nat)
    requires WellFormedSet(row) && !Holds(row, tag) && w < |row|
    requires w == FirstInvalid(row) || Full(row)
    ensures WellFormedSet(FillRow(row, w, tag))
    ensures WayOf(FillRow(row, w, tag), tag) == w
    ensures NoLineInvalidated(row, FillRow(row, w, tag))
  {
    var r := FillRow(row, w, tag);
    HoldsIff(row, tag);
    forall i, j | 0 <= i < j < |r| && r[j].valid
      ensures r[i].valid
    {
      if i != w && j != w {
        assert row[j].valid;
      } else if i != w && Full(row) {
        assert row[i].valid;
      }
    }
    assert r[w] == Line(true, false, tag);
    assert WayOf(r, tag) <= w;
  }

  /** Marking a line dirty keeps the set well formed and holding the same tags. */
  lemma DirtyKeepsWellFormed(row: seq<Line>, w: nat)
    requires WellFormedSet(row) && w < |row|
    ensures WellFormedSet(row[w := row[w].(dirty := true)])
    ensures NoLineInvalidated(row, row[w := row[w].(dirty := true)])
  {
  }

  /** A set whose valid lines form a prefix holds exactly FirstInvalid valid lines
      in front; filling its lowest invalid way moves that boundary by one. */
  lemma {:induction false} FillFirstInvalid(row: seq<Line>, tag: nat)
    requires ValidPrefix(row) && !Full(row)
    ensures FirstInvalid(FillRow(row, FirstInvalid(row), tag)) == FirstInvalid(row) + 1
  {
    var k := FirstInvalid(row);
    var r := FillRow(row, k, tag);
    FirstInvalidExact(r, k + 1);
  }

  /** A full set stays full when no line is invalidated. */
  lemma FullStaysFull(before: seq<Line>, after: seq<Line>)
    requires NoLineInvalidated(before, after) && Full(before)
    ensures Full(after)
  {
    FirstInvalidExact(after, |after|);
  }

  lemma {:induction false} FirstInvalidExact(row: seq<Line>, k: nat)
    requires k <= |row|
    requires forall j | 0 <= j < k :: row[j].valid
    requires k < |row| ==> !row[k].valid
    ensures FirstInvalid(row) == k
  {
    if row != [] && k > 0 {
      FirstInvalidExact(row[1..], k - 1);
    }
  }
}
