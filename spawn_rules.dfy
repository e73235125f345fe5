/** Enemy spawning rules of script.js: choosing the spawn distribution for a
    wave (`getSpawnDistributionForLevel`), sampling a vertex count from it
    (`Game.pickEnemyFromDistribution`) and the eased spawn interval of
    `Game.spawnSystem`. The distribution table itself lives in
    spawnDistribution.js, which is not part of this model: it is a parameter. */
module SpawnRules {
  import opened Common

  /** One entry of a distribution: a vertex count and its probability weight. */
  datatype Weight = Weight(vertices: nat, prob: real)

  /** A distribution, in the object's key iteration order. */
  type Distribution = seq<Weight>

  /** One entry of `SPAWN_DISTRIBUTION`: the first wave it applies to. */
  datatype Tier = Tier(threshold: int, weights: Distribution)

  /** What the table must be for the game to run: at least one tier, no key
      twice (they are object keys), every distribution non-empty and every
      vertex count a polygon. */
  predicate WellFormedTable(table: seq<Tier>)
  {
    |table| > 0 &&
    (forall i, j :: 0 <= i < j < |table| ==> table[i].threshold != table[j].threshold) &&
    (forall i :: 0 <= i < |table| ==> WellFormedDistribution(table[i].weights))
  }

  predicate WellFormedDistribution(d: Distribution)
  {
    |d| > 0 && forall k :: 0 <= k < |d| ==> d[k].vertices >= 3
  }

  /** `Object.keys(SPAWN_DISTRIBUTION).map(Number)`. */
  function Thresholds(table: seq<Tier>): (ts: seq<int>)
    ensures |ts| == |table|
    ensures forall i :: 0 <= i < |table| ==> ts[i] == table[i].threshold
  {
    if |table| == 0 then [] else [table[0].threshold] + Thresholds(table[1..])
  }

  predicate Sorted(s: seq<int>)
  {
    forall i, j :: 0 <= i < j < |s| ==> s[i] <= s[j]
  }

  /** An element no larger than the head of an ascending list extends it. */
  lemma SortedCons(h: int, t: seq<int>)
    requires Sorted(t) && (|t| > 0 ==> h <= t[0])
    ensures Sorted([h] + t)
  {
    var r := [h] + t;
    forall i, j | 0 <= i < j < |r|
      ensures r[i] <= r[j]
    {
      if i > 0 {
        assert r[i] == t[i - 1] && r[j] == t[j - 1];
      } else {
        assert r[j] == t[j - 1];
      }
    }
  }

  function Insert(x: int, s: seq<int>): (r: seq<int>)
    requires Sorted(s)
    ensures |r| == |s| + 1 && r[0] == (if |s| == 0 || x <= s[0] then x else s[0])
    ensures Sorted(r)
    ensures multiset(r) == multiset(s) + multiset{x}
  {
    if |s| == 0 then [x]
    else if x <= s[0] then
      SortedCons(x, s);
      [x] + s
    else
      assert s == [s[0]] + s[1..];
      var tail := Insert(x, s[1..]);
      SortedCons(s[0], tail);
      [s[0]] + tail
  }

  /** `.sort((a, b) => a - b)`: ascending order, same elements. */
  function SortAscending(s: seq<int>): (r: seq<int>)
    ensures |r| == |s|
    ensures Sorted(r)
    ensures multiset(r) == multiset(s)
  {
    if |s| == 0 then []
    else
      assert s == [s[0]] + s[1..];
      Insert(s[0], SortAscending(s[1..]))
  }

  /** The `for ... if (level >= lvl) selected = lvl; else break;` scan. */
  function Scan(levels: seq<int>, level: int, selected: int): int
  {
    if |levels| == 0 then selected
    else if level >= levels[0] then Scan(levels[1..], level, levels[0])
    else selected
  }

  /** On an ascending list the scan ends on the greatest entry not above the
      level, and keeps its start value when every entry is above the level. */
  lemma {:induction false} ScanFindsGreatestAtMost(levels: seq<int>, level: int, selected: int)
    requires Sorted(levels)
    ensures (forall k :: 0 <= k < |levels| ==> levels[k] > level) ==> Scan(levels, level, selected) == selected
    ensures (exists k :: 0 <= k < |levels| && levels[k] <= level) ==>
              Scan(levels, level, selected) in levels && Scan(levels, level, selected) <= level &&
              forall k :: 0 <= k < |levels| && levels[k] <= level ==> levels[k] <= Scan(levels, level, selected)
  {
    if |levels| > 0 && level >= levels[0] {
      var rest := levels[1..];
      ScanFindsGreatestAtMost(rest, level, levels[0]);
      var r := Scan(rest, level, levels[0]);
      if exists k :: 0 <= k < |rest| && rest[k] <= level {
        forall k | 0 <= k < |levels| && levels[k] <= level
          ensures levels[k] <= r
        {
          if k > 0 {
            assert rest[k - 1] == levels[k];
          }
        }
      } else {
        forall k | 0 < k < |levels|
          ensures levels[k] > level
        {
          assert levels[k] == rest[k - 1];
        }
      }
    }
  }

  /** `SPAWN_DISTRIBUTION[threshold]`. */
  function Lookup(table: seq<Tier>, threshold: int): Distribution
  {
    if |table| == 0 then []
    else if table[0].threshold == threshold then table[0].weights
    else Lookup(table[1..], threshold)
  }

  lemma {:induction false} LookupFindsTier(table: seq<Tier>, i: nat)
    requires i < |table|
    requires forall a, b :: 0 <= a < b < |table| ==> table[a].threshold != table[b].threshold
    ensures Lookup(table, table[i].threshold) == table[i].weights
  {
    if i > 0 {
      LookupFindsTier(table[1..], i - 1);
    }
  }

  /** The threshold `getSpawnDistributionForLevel` settles on. */
  function SelectedThreshold(table: seq<Tier>, level: int): int
    requires |table| > 0
  {
    var levels := SortAscending(Thresholds(table));
    Scan(levels, level, levels[0])
  }

  /** `getSpawnDistributionForLevel(level)`. */
  function DistributionFor(table: seq<Tier>, level: int): Distribution
    requires |table| > 0
  {
    Lookup(table, SelectedThreshold(table, level))
  }

  /** The threshold a wave gets among `ts`: the greatest one not above the
      wave index, or the smallest one when the wave is below all of them. */
  ghost predicate ChosenAmong(ts: seq<int>, level: int, th: int)
  {
    if exists j :: 0 <= j < |ts| && ts[j] <= level then
      th <= level && forall j :: 0 <= j < |ts| && ts[j] <= level ==> ts[j] <= th
    else
      forall j :: 0 <= j < |ts| ==> th <= ts[j]
  }

  lemma SortKeepsElements(s: seq<int>, x: int)
    ensures x in SortAscending(s) <==> x in s
  {
    assert x in multiset(SortAscending(s)) <==> x in multiset(s);
  }

  /** Sorting and then scanning from the first (smallest) entry settles on
      the chosen threshold, which is one of the inputs. */
  lemma ScanOfSortedChooses(ts: seq<int>, level: int)
    requires |ts| > 0
    ensures var levels := SortAscending(ts);
            var th := Scan(levels, level, levels[0]);
            th in ts && ChosenAmong(ts, level, th)
  {
    var levels := SortAscending(ts);
    var th := Scan(levels, level, levels[0]);
    ScanFindsGreatestAtMost(levels, level, levels[0]);
    SortKeepsElements(ts, th);
    if exists j :: 0 <= j < |ts| && ts[j] <= level {
      var j :| 0 <= j < |ts| && ts[j] <= level;
      SortKeepsElements(ts, ts[j]);
      forall j' | 0 <= j' < |ts| && ts[j'] <= level
        ensures ts[j'] <= th
      {
        SortKeepsElements(ts, ts[j']);
      }
    } else {
      forall k | 0 <= k < |levels|
        ensures levels[k] > level
      {
        SortKeepsElements(ts, levels[k]);
      }
      forall j | 0 <= j < |ts|
        ensures th <= ts[j]
      {
        SortKeepsElements(ts, ts[j]);
      }
    }
  }

  /** The distribution for a wave is that of the one tier whose threshold is
      the chosen one. */
  lemma DistributionForChoosesTier(table: seq<Tier>, level: int)
    requires WellFormedTable(table)
    ensures ChosenAmong(Thresholds(table), level, SelectedThreshold(table, level))
    ensures exists i :: 0 <= i < |table| && table[i].threshold == SelectedThreshold(table, level) &&
                        DistributionFor(table, level) == table[i].weights
  {
    var ts := Thresholds(table);
    ScanOfSortedChooses(ts, level);
    var th := SelectedThreshold(table, level);
    var i :| 0 <= i < |ts| && ts[i] == th;
    LookupFindsTier(table, i);
  }

  /** Running sum of the first `n` weights. */
  function PrefixSum(d: Distribution, n: nat): real
    requires n <= |d|
  {
    if n == 0 then 0.0 else PrefixSum(d, n - 1) + d[n - 1].prob
  }

  /** Running sum up to and including entry `m`. */
  function SumThrough(d: Distribution, m: nat): real
    requires m < |d|
  {
    PrefixSum(d, m + 1)
  }

  /** The `for (const vertices in distribution)` loop with its accumulator,
      falling back to the first key when no running sum covers the draw. */
  function PickFrom(d: Distribution, r: real, i: nat, acc: real): nat
    requires 0 < |d| && i <= |d|
    decreases |d| - i
  {
    if i == |d| then d[0].vertices
    else
      var acc' := acc + d[i].prob;
      if r <= acc' then d[i].vertices else PickFrom(d, r, i + 1, acc')
  }

  /** `pickEnemyFromDistribution` for the draw `r = Math.random()`. */
  function Pick(d: Distribution, r: real): nat
    requires |d| > 0
  {
    PickFrom(d, r, 0, 0.0)
  }

  lemma {:induction false} PickFromSpec(d: Distribution, r: real, i: nat, k: nat)
    requires 0 < |d| && i <= k < |d|
    requires r <= SumThrough(d, k)
    requires forall m :: i <= m < k ==> r > SumThrough(d, m)
    ensures PickFrom(d, r, i, PrefixSum(d, i)) == d[k].vertices
    decreases k - i
  {
    assert SumThrough(d, i) == PrefixSum(d, i) + d[i].prob;
    if i < k {
      PickFromSpec(d, r, i + 1, k);
    }
  }

  /** The pick is the first key whose running sum reaches the draw. */
  lemma PickIsFirstCovering(d: Distribution, r: real, k: nat)
    requires k < |d|
    requires r <= SumThrough(d, k)
    requires forall m :: 0 <= m < k ==> r > SumThrough(d, m)
    ensures Pick(d, r) == d[k].vertices
  {
    PickFromSpec(d, r, 0, k);
  }

  lemma {:induction false} PickFromFallback(d: Distribution, r: real, i: nat)
    requires 0 < |d| && i <= |d|
    requires forall m :: i <= m < |d| ==> r > SumThrough(d, m)
    ensures PickFrom(d, r, i, PrefixSum(d, i)) == d[0].vertices
    decreases |d| - i
  {
    if i < |d| {
      assert SumThrough(d, i) == PrefixSum(d, i) + d[i].prob;
      PickFromFallback(d, r, i + 1);
    }
  }

  /** When no running sum reaches the draw (weights summing below it), the
      pick is the first key. */
  lemma PickFallsBackToFirstKey(d: Distribution, r: real)
    requires |d| > 0
    requires forall m :: 0 <= m < |d| ==> r > SumThrough(d, m)
    ensures Pick(d, r) == d[0].vertices
  {
    PickFromFallback(d, r, 0);
  }

  /** Every pick is one of the distribution's vertex counts. */
  lemma {:induction false} PickIsAKey(d: Distribution, r: real, i: nat, acc: real)
    requires 0 < |d| && i <= |d|
    ensures exists k :: 0 <= k < |d| && PickFrom(d, r, i, acc) == d[k].vertices
    decreases |d| - i
  {
    if i == |d| {
      assert PickFrom(d, r, i, acc) == d[0].vertices;
    } else if r <= acc + d[i].prob {
      assert PickFrom(d, r, i, acc) == d[i].vertices;
    } else {
      PickIsAKey(d, r, i + 1, acc + d[i].prob);
    }
  }

  /** Whatever the wave and the draw, a well-formed table only ever spawns
      polygons: the picked vertex count is at least 3. */
  lemma SpawnedShapeIsPolygon(table: seq<Tier>, level: int, r: real)
    requires WellFormedTable(table)
    ensures |DistributionFor(table, level)| > 0
    ensures Pick(DistributionFor(table, level), r) >= 3
  {
    DistributionForChoosesTier(table, level);
    var d := DistributionFor(table, level);
    PickIsAKey(d, r, 0, 0.0);
  }

  const WAVE_DURATION: real := 150.0
  const SPAWN_RATE_START: real := 1.0

  /** `SPAWN_RATE_START - (SPAWN_RATE_START - 0.2) * progress^2` with
      `progress = 1 - waveTime / WAVE_DURATION`. */
  function SpawnInterval(waveTime: real): real
  {
    var progress := 1.0 - waveTime / WAVE_DURATION;
    SPAWN_RATE_START - (SPAWN_RATE_START - 0.2) * Sq(progress)
  }

  /** During a wave the interval stays between 0.2 s and 1 s. */
  lemma SpawnIntervalBounded(waveTime: real)
    requires 0.0 <= waveTime <= WAVE_DURATION
    ensures 0.2 <= SpawnInterval(waveTime) <= 1.0
  {
    var progress := 1.0 - waveTime / WAVE_DURATION;
    SqMonotone(progress, 1.0);
    SqNonNegative(progress);
  }

  /** The interval shrinks as the wave runs down: enemies come faster. */
  lemma SpawnIntervalShrinks(later: real, earlier: real)
    requires 0.0 <= later <= earlier <= WAVE_DURATION
    ensures SpawnInterval(later) <= SpawnInterval(earlier)
  {
    SqMonotone(1.0 - earlier / WAVE_DURATION, 1.0 - later / WAVE_DURATION);
  }
}
