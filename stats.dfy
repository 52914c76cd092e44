/** The post-processing of a simulation: each recorded answer is walked along
    the ordered list of level names; every level passed before the one that
    answered counts a miss, the level that answered counts a hit and the
    answer's cycles. An answer naming no level of the list is reported as an
    error after the walk, which has counted a miss at every level. */
module Stats {
  import opened Types

  /** The tallies of one level. */
  datatype CacheStats = CacheStats(hits: nat, misses: nat, totalLatency: nat)

  /** The tallies of a level no answer has reached yet. */
  const Zero: CacheStats := CacheStats(0, 0, 0)

  /** The tallies kept for `name`; a name without an entry reads as zeros. */
  function Get(db: map<string, CacheStats>, name: string): CacheStats
  {
    if name in db then db[name] else Zero
  }

  /** The tallies after walking one answer along `names` (the levels not yet
      passed): a miss for each level until the answering one, then its hit. */
  function Walk(db: map<string, CacheStats>, names: seq<string>, res: AccessResult): map<string, CacheStats>
    decreases |names|
  {
    if names == [] then db
    else if names[0] == res.hitLevel then
      var s := Get(db, names[0]);
      db[names[0] := s.(hits := s.hits + 1, totalLatency := s.totalLatency + res.totalCycles)]
    else
      var s := Get(db, names[0]);
      Walk(db[names[0] := s.(misses := s.misses + 1)], names[1..], res)
  }

  /** The tallies after walking every answer of `history`, in order. Only
      the listed levels get an entry: a level outside the list reports zeros. */
  function Tally(history: seq<AccessResult>, names: seq<string>): (db: map<string, CacheStats>)
    ensures db.Keys <= set x | x in names
  {
    if history == [] then map[]
    else
      var prev := Tally(history[..|history| - 1], names);
      WalkKeys(prev, names, history[|history| - 1]);
      Walk(prev, names, history[|history| - 1])
  }

  /** Walking an answer removes no entry, and adds entries only for names
      of the list. */
  lemma {:induction false} WalkKeys(db: map<string, CacheStats>, names: seq<string>, res: AccessResult)
    ensures db.Keys <= Walk(db, names, res).Keys <= db.Keys + (set x | x in names)
    decreases |names|
  {
    if names != [] && names[0] != res.hitLevel {
      var s := Get(db, names[0]);
      WalkKeys(db[names[0] := s.(misses := s.misses + 1)], names[1..], res);
    }
  }

  /** The hit levels reported as errors: those of the answers naming no level
      of `names`, in order. */
  function Unfound(history: seq<AccessResult>, names: seq<string>): seq<string>
  {
    if history == [] then []
    else
      var last := history[|history| - 1];
      Unfound(history[..|history| - 1], names) + (if last.hitLevel in names then [] else [last.hitLevel])
  }

  /** The number of answers naming a level of `names`. */
  function CountFound(history: seq<AccessResult>, names: seq<string>): nat
  {
    if history == [] then 0
    else CountFound(history[..|history| - 1], names) + (if history[|history| - 1].hitLevel in names then 1 else 0)
  }

  /** The number of occurrences of x in s. */
  function Count(s: seq<string>, x: string): nat
  {
    if s == [] then 0 else (if s[0] == x then 1 else 0) + Count(s[1..], x)
  }

  /** The index of the first occurrence of x in s, |s| when there is none. */
  function FirstIndex(s: seq<string>, x: string): (k: nat)
    ensures k <= |s|
    ensures k < |s| <==> x in s
    ensures k < |s| ==> s[k] == x
    ensures x !in s[..k]
  {
    if s == [] then 0
    else if s[0] == x then 0
    else
      var k := 1 + FirstIndex(s[1..], x);
      assert s[..k] == [s[0]] + s[1..][..k - 1];
      k
  }

  /** No name occurs twice. */
  predicate Distinct(s: seq<string>)
  {
    forall i, j | 0 <= i < j < |s| :: s[i] != s[j]
  }

  /** The hits summed over the levels `names`. */
  function SumHits(db: map<string, CacheStats>, names: seq<string>): nat
  {
    if names == [] then 0 else Get(db, names[0]).hits + SumHits(db, names[1..])
  }

  /** The aggregation: every answer of `history`, in order, walked along
      `hierarchy`; the answers naming no level are collected as errors. */
  method Aggregate(history: seq<AccessResult>, hierarchy: seq<string>)
    returns (db: map<string, CacheStats>, unknown: seq<string>)
    ensures db == Tally(history, hierarchy)
    ensures unknown == Unfound(history, hierarchy)
  {
    db := map[];
    unknown := [];
    for i := 0 to |history|
      invariant db == Tally(history[..i], hierarchy)
      invariant unknown == Unfound(history[..i], hierarchy)
    {
      var res := history[i];
      var hitFound;
      db, hitFound := WalkAnswer(db, hierarchy, res);
      if !hitFound {
        unknown := unknown + [res.hitLevel];
      }
      assert history[..i + 1][..i] == history[..i];
    }
    assert history[..|history|] == history;
  }

  /** The walk of one answer along `hierarchy`: a miss at each level until
      the answering one, whose hit and cycles are counted before the walk
      stops. `hitFound` tells whether some level of the list answered. */
  method WalkAnswer(db: map<string, CacheStats>, hierarchy: seq<string>, res: AccessResult)
    returns (db': map<string, CacheStats>, hitFound: bool)
    ensures db' == Walk(db, hierarchy, res)
    ensures hitFound <==> res.hitLevel in hierarchy
  {
    db', hitFound := db, false;
    for j := 0 to |hierarchy|
      invariant Walk(db, hierarchy, res) == Walk(db', hierarchy[j..], res)
      invariant res.hitLevel !in hierarchy[..j] && !hitFound
    {
      var levelName := hierarchy[j];
      if levelName == res.hitLevel {
        var s := Get(db', levelName);
        db' := db'[levelName := s.(hits := s.hits + 1, totalLatency := s.totalLatency + res.totalCycles)];
        hitFound := true;
        return;
      } else {
        var s := Get(db', levelName);
        db' := db'[levelName := s.(misses := s.misses + 1)];
      }
      assert hierarchy[..j + 1] == hierarchy[..j] + [levelName];
    }
    assert hierarchy[..|hierarchy|] == hierarchy;
  }

  /** The effect of walking one answer on the tallies of any name x: the
      answering level gains a hit and the answer's cycles; every other name
      gains one miss per occurrence before the first occurrence of the
      answering level (all of `names` when no level answered), and nothing
      else changes. */
  lemma {:induction false} WalkPerName(db: map<string, CacheStats>, names: seq<string>, res: AccessResult, x: string)
    ensures var s := Get(db, x);
            Get(Walk(db, names, res), x) ==
              if x == res.hitLevel && x in names then s.(hits := s.hits + 1, totalLatency := s.totalLatency + res.totalCycles)
              else s.(misses := s.misses + Count(names[..FirstIndex(names, res.hitLevel)], x))
    decreases |names|
  {
    if names != [] {
      var k := FirstIndex(names, res.hitLevel);
      if names[0] == res.hitLevel {
        assert names[..k] == [];
      } else {
        var s := Get(db, names[0]);
        var db' := db[names[0] := s.(misses := s.misses + 1)];
        WalkPerName(db', names[1..], res, x);
        assert FirstIndex(names[1..], res.hitLevel) == k - 1;
        assert names[..k] == [names[0]] + names[1..][..k - 1];
        assert x in names <==> x == names[0] || x in names[1..];
      }
    }
  }

  /** No name occurs in a distinct list more than once. */
  lemma {:induction false} CountDistinct(s: seq<string>, j: nat)
    requires Distinct(s) && j < |s|
    ensures Count(s, s[j]) == 1
    ensures forall i | 0 <= i <= |s| :: Count(s[..i], s[j]) == if j < i then 1 else 0
  {
    CountAbsent(s[..j], s[j]);
    CountAbsent(s[j + 1..], s[j]);
    forall i | 0 <= i <= |s|
      ensures Count(s[..i], s[j]) == if j < i then 1 else 0
    {
      if i <= j {
        CountAbsent(s[..i], s[j]);
      } else {
        assert s[..i] == s[..j] + [s[j]] + s[j + 1..i];
        CountAbsent(s[j + 1..i], s[j]);
        CountAppend(s[..j], [s[j]], s[j]);
        CountAppend(s[..j] + [s[j]], s[j + 1..i], s[j]);
      }
    }
    assert s == s[..j] + [s[j]] + s[j + 1..];
    CountAppend(s[..j], [s[j]], s[j]);
    CountAppend(s[..j] + [s[j]], s[j + 1..], s[j]);
  }

  lemma {:induction false} CountAbsent(s: seq<string>, x: string)
    requires x !in s
    ensures Count(s, x) == 0
  {
    if s != [] {
      CountAbsent(s[1..], x);
    }
  }

  lemma {:induction false} CountAppend(a: seq<string>, b: seq<string>, x: string)
    ensures Count(a + b, x) == Count(a, x) + Count(b, x)
  {
    if a == [] {
      assert a + b == b;
    } else {
      assert (a + b)[1..] == a[1..] + b;
      CountAppend(a[1..], b, x);
    }
  }

  /** For a list of distinct level names, walking an answer that level k
      gave (k == |names| when no level did) adds a miss to each level before
      k, a hit and the answer's cycles to level k, and leaves the levels
      after k as they were. */
  lemma WalkDistinct(db: map<string, CacheStats>, names: seq<string>, res: AccessResult, j: nat)
    requires Distinct(names) && j < |names|
    ensures var k := FirstIndex(names, res.hitLevel);
            var s := Get(db, names[j]);
            Get(Walk(db, names, res), names[j]) ==
              if j < k then s.(misses := s.misses + 1)
              else if j == k then s.(hits := s.hits + 1, totalLatency := s.totalLatency + res.totalCycles)
              else s
  {
    WalkPerName(db, names, res, names[j]);
    CountDistinct(names, j);
  }

  /** An answer from a level absent from the list (which the program reports
      as an error) still adds a miss to every listed level, once per
      occurrence of its name, and adds no hit and no latency anywhere. */
  lemma UnknownLevelMissesEverywhere(db: map<string, CacheStats>, names: seq<string>, res: AccessResult, x: string)
    requires res.hitLevel !in names
    ensures var s := Get(db, x);
            Get(Walk(db, names, res), x) == s.(misses := s.misses + Count(names, x))
  {
    WalkPerName(db, names, res, x);
    assert names[..FirstIndex(names, res.hitLevel)] == names;
  }

  /** Summing over distinct names, the hits grow by one exactly when the answer
      names a level of the list. */
  lemma WalkSumHits(db: map<string, CacheStats>, names: seq<string>, res: AccessResult)
    requires Distinct(names)
    ensures SumHits(Walk(db, names, res), names) == SumHits(db, names) + (if res.hitLevel in names then 1 else 0)
  {
    var db' := Walk(db, names, res);
    forall x | x in names
      ensures Get(db', x).hits == Get(db, x).hits + (if x == res.hitLevel then 1 else 0)
    {
      WalkPerName(db, names, res, x);
    }
    SumHitsShift(db, db', names, res.hitLevel);
    if res.hitLevel in names {
      var k := FirstIndex(names, res.hitLevel);
      CountDistinct(names, k);
    } else {
      CountAbsent(names, res.hitLevel);
    }
  }

  lemma {:induction false} SumHitsShift(db: map<string, CacheStats>, db': map<string, CacheStats>, names: seq<string>, h: string)
    requires forall x | x in names :: Get(db', x).hits == Get(db, x).hits + (if x == h then 1 else 0)
    ensures SumHits(db', names) == SumHits(db, names) + Count(names, h)
  {
    if names != [] {
      assert names[0] in names;
      SumHitsShift(db, db', names[1..], h);
    }
  }

  /** Summed over distinct level names, the hits counted are the answers
      that name a level of the list; every other answer is reported as an
      error, so the two account for the whole history. */
  lemma {:induction false} TallyHits(history: seq<AccessResult>, names: seq<string>)
    requires Distinct(names)
    ensures SumHits(Tally(history, names), names) == CountFound(history, names)
    ensures CountFound(history, names) + |Unfound(history, names)| == |history|
  {
    if history == [] {
      EmptySumHits(names);
    } else {
      var prev := history[..|history| - 1];
      TallyHits(prev, names);
      WalkSumHits(Tally(prev, names), names, history[|history| - 1]);
    }
  }

  lemma {:induction false} EmptySumHits(names: seq<string>)
    ensures SumHits(map[], names) == 0
  {
    if names != [] {
      EmptySumHits(names[1..]);
    }
  }

  /** No error is reported exactly when every answer names a level of the list. */
  lemma {:induction false} UnfoundNone(history: seq<AccessResult>, names: seq<string>)
    ensures Unfound(history, names) == [] <==> forall i | 0 <= i < |history| :: history[i].hitLevel in names
  {
    if history != [] {
      var prev := history[..|history| - 1];
      UnfoundNone(prev, names);
      assert forall i | 0 <= i < |prev| :: prev[i] == history[i];
    }
  }

  /** The answers level `name` gave, in order. */
  function AnsweredBy(history: seq<AccessResult>, name: string): seq<AccessResult>
  {
    if history == [] then []
    else
      var last := history[|history| - 1];
      AnsweredBy(history[..|history| - 1], name) + (if last.hitLevel == name then [last] else [])
  }

  /** The number of answers that none of the levels `upper` gave. */
  function PassedBy(history: seq<AccessResult>, upper: seq<string>): nat
  {
    if history == [] then 0
    else PassedBy(history[..|history| - 1], upper) + (if history[|history| - 1].hitLevel in upper then 0 else 1)
  }

  /** The cycles of some answers, summed. */
  function Cycles(rs: seq<AccessResult>): nat
  {
    if rs == [] then 0 else Cycles(rs[..|rs| - 1]) + rs[|rs| - 1].totalCycles
  }

  lemma {:induction false} CyclesAppend(a: seq<AccessResult>, b: seq<AccessResult>)
    ensures Cycles(a + b) == Cycles(a) + Cycles(b)
    decreases |b|
  {
    if b != [] {
      assert (a + b)[..|a + b| - 1] == a + b[..|b| - 1];
      CyclesAppend(a, b[..|b| - 1]);
    } else {
      assert a + b == a;
    }
  }

  /** What the aggregation reports for level j of a list of distinct names,
      described without walking: its hits are the answers it gave, its
      latency their cycles, and its misses the answers that no level up to
      and including it gave. */
  lemma {:induction false} TallyPerLevel(history: seq<AccessResult>, names: seq<string>, j: nat)
    requires Distinct(names) && j < |names|
    ensures var answered := AnsweredBy(history, names[j]);
            Get(Tally(history, names), names[j]) ==
              CacheStats(|answered|, PassedBy(history, names[..j + 1]), Cycles(answered))
  {
    if history != [] {
      var prev, last := history[..|history| - 1], history[|history| - 1];
      TallyPerLevel(prev, names, j);
      WalkDistinct(Tally(prev, names), names, last, j);
      var k := FirstIndex(names, last.hitLevel);
      assert last.hitLevel == names[j] <==> k == j;
      assert last.hitLevel in names[..j + 1] <==> k <= j by {
        if k <= j {
          assert names[..j + 1][k] == last.hitLevel;
        } else if j + 1 <= k {
          assert names[..j + 1] == names[..k][..j + 1];
        }
      }
      if last.hitLevel == names[j] {
        CyclesAppend(AnsweredBy(prev, names[j]), [last]);
        assert Cycles([last]) == last.totalCycles by {
          assert [last][..0] == [];
        }
      } else {
        assert AnsweredBy(prev, names[j]) + [] == AnsweredBy(prev, names[j]);
      }
    }
  }

  /** The average latency of a level as a fraction num / den: the level's
      total latency over its hits, and 0 for a level with no hit. */
  datatype Ratio = Ratio(num: nat, den: nat)

  function AverageLatency(s: CacheStats): (r: Ratio)
    ensures r.den > 0
    ensures s.hits > 0 ==> r.num * s.hits == s.totalLatency * r.den
    ensures s.hits == 0 ==> r.num == 0
  {
    if s.hits > 0 then Ratio(s.totalLatency, s.hits) else Ratio(0, 1)
  }

  /** One line of the report: a level's name, hits, misses and average. */
  datatype ReportRow = ReportRow(name: string, hits: nat, misses: nat, average: Ratio)

  /** The report, one row per level of `hierarchy`, in its order. */
  function Report(db: map<string, CacheStats>, hierarchy: seq<string>): (rows: seq<ReportRow>)
    ensures |rows| == |hierarchy|
    ensures forall i | 0 <= i < |hierarchy| ::
              rows[i].name == hierarchy[i] && rows[i].hits == Get(db, hierarchy[i]).hits &&
              rows[i].misses == Get(db, hierarchy[i]).misses
    ensures forall i | 0 <= i < |hierarchy| :: rows[i].average == AverageLatency(Get(db, hierarchy[i]))
    ensures forall i | 0 <= i < |hierarchy| && hierarchy[i] !in db :: rows[i] == ReportRow(hierarchy[i], 0, 0, Ratio(0, 1))
  {
    seq(|hierarchy|, i requires 0 <= i < |hierarchy| =>
      var s := Get(db, hierarchy[i]);
      ReportRow(hierarchy[i], s.hits, s.misses, AverageLatency(s)))
  }
}
