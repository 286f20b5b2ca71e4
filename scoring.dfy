/** The score curve of src/services/analyzer.ts (`calculateScore`, `getNextLevelAmount`,
    `getCurrentLevelInfo`): a doubled USD volume scores k on [2^k, 2^(k+1)), 0 below 2.
    The table SCORE_LEVELS covers scores 1 to 5; past 32 every doubling adds one point.
    The three operations read no analyzer state, so they are module-level methods here. */
module Scoring {
  import opened Common
  import opened Types

  function Pow2(k: nat): nat {
    Pow(2, k)
  }

  /** floor(log2 v) for v >= 1, as the band [2^k, 2^(k+1)) that holds v. */
  function Log2Floor(v: real): (k: nat)
    requires v >= 1.0
    ensures Pow2(k) as real <= v < Pow2(k + 1) as real
    decreases v.Floor
  {
    if v < 2.0 then 0 else 1 + Log2Floor(v / 2.0)
  }

  /** The score of a doubled volume: 0 below the first tier, else the exponent of the largest
      power of two that does not exceed it. */
  function LevelScore(v: real): nat {
    if v < 2.0 then 0 else Log2Floor(v)
  }

  /** The lower end of the band that holds `v`: 0 below the first tier. */
  function LevelFloor(v: real): nat {
    if v < 2.0 then 0 else Pow2(LevelScore(v))
  }

  /** The smallest of 2, 4, 8, 16, 32, 64, ... strictly greater than `v`. */
  function NextThreshold(v: real): nat {
    Pow2(LevelScore(v) + 1)
  }

  function Clamp(p: real): (r: real)
    ensures 0.0 <= r <= 100.0
    ensures 0.0 <= p <= 100.0 ==> r == p
  {
    if p < 0.0 then 0.0 else if p > 100.0 then 100.0 else p
  }

  /** The progress bar value: position of `v` inside its band, in percent, clamped. */
  function LevelProgress(v: real): real {
    var lo, hi := LevelFloor(v) as real, NextThreshold(v) as real;
    if hi > lo then Clamp((v - lo) / (hi - lo) * 100.0) else 0.0
  }

  datatype LevelInfo = LevelInfo(currentLevel: nat, nextLevel: nat, progress: real)

  // ---------------------------------------------------------------------------
  // Properties of the curve

  lemma Pow2Increasing(i: nat, j: nat)
    requires i < j
    ensures Pow2(i) < Pow2(j)
  {
    PowStrictlyIncreasing(2, i, j);
  }

  lemma Pow2Small()
    ensures Pow2(0) == 1 && Pow2(1) == 2 && Pow2(2) == 4 && Pow2(3) == 8
    ensures Pow2(4) == 16 && Pow2(5) == 32 && Pow2(6) == 64 && Pow2(7) == 128
  {
    assert Pow(2, 7) == 2 * Pow(2, 6);
  }

  /** The score is k exactly on the band [2^k, 2^(k+1)), lower bound included. */
  lemma LevelScoreBand(v: real, k: nat)
    requires 1 <= k && Pow2(k) as real <= v < Pow2(k + 1) as real
    ensures LevelScore(v) == k
  {
    Pow2Small();
    if k > 1 { Pow2Increasing(1, k); }
    var m := Log2Floor(v);
    if m < k {
      if m + 1 < k { Pow2Increasing(m + 1, k); }
      assert false;
    } else if m > k {
      if k + 1 < m { Pow2Increasing(k + 1, m); }
      assert false;
    }
  }

  /** Conversely, a positive score places the volume in its band, and 0 means below 2. */
  lemma LevelScoreBounds(v: real)
    ensures LevelScore(v) == 0 <==> v < 2.0
    ensures LevelScore(v) >= 1 ==>
      Pow2(LevelScore(v)) as real <= v < Pow2(LevelScore(v) + 1) as real
  {
    Pow2Small();
    if v >= 2.0 {
      var m := Log2Floor(v);
      if m == 0 { assert false; }
    }
  }

  /** The tier table is the curve: the i-th SCORE_LEVELS entry is the first volume with its score. */
  lemma ScoreLevelsFollowCurve()
    ensures forall i :: 0 <= i < |ScoreLevels| ==>
      ScoreLevels[i].amount == Pow2(i + 1) && LevelScore(ScoreLevels[i].amount as real) == ScoreLevels[i].score
  {
    Pow2Small();
    forall i | 0 <= i < |ScoreLevels|
      ensures ScoreLevels[i].amount == Pow2(i + 1)
      ensures LevelScore(ScoreLevels[i].amount as real) == ScoreLevels[i].score
    {
      LevelScoreBand(Pow2(i + 1) as real, i + 1);
    }
  }

  /** Past the table, each doubling adds one point: score(32) = 5, score(64) = 6, score(128) = 7. */
  lemma ScoreBeyondTable()
    ensures LevelScore(32.0) == 5 && LevelScore(64.0) == 6 && LevelScore(128.0) == 7
    ensures forall k: nat :: k >= 1 ==> LevelScore(Pow2(k) as real) == k
  {
    Pow2Small();
    forall k: nat | k >= 1 ensures LevelScore(Pow2(k) as real) == k {
      LevelScoreBand(Pow2(k) as real, k);
    }
  }

  /** NextThreshold is a threshold strictly above v, and no smaller threshold is above v. */
  lemma NextThresholdLeast(v: real, k: nat)
    requires k >= 1 && Pow2(k) as real > v
    ensures NextThreshold(v) as real > v && NextThreshold(v) >= 2
    ensures NextThreshold(v) <= Pow2(k)
  {
    Pow2Small();
    var s := LevelScore(v);
    LevelScoreBounds(v);
    if s + 1 > 1 { Pow2Increasing(1, s + 1); }
    if s >= 1 {
      if k <= s {
        if k < s { Pow2Increasing(k, s); }
        assert false;
      }
      if s + 1 < k { Pow2Increasing(s + 1, k); }
    } else if k > 1 {
      Pow2Increasing(1, k);
    }
  }

  /** The band of `v` runs from LevelFloor(v) to NextThreshold(v) = 2 * LevelFloor(v) (from 0 to 2
      below the first tier), and holds v. */
  lemma BandOfVolume(v: real)
    ensures v >= 2.0 ==> NextThreshold(v) == 2 * LevelFloor(v) && LevelFloor(v) as real <= v
    ensures v < 2.0 ==> LevelFloor(v) == 0 && NextThreshold(v) == 2
    ensures v < NextThreshold(v) as real
  {
    Pow2Small();
    LevelScoreBounds(v);
  }

  /** Inside one band the progress bar only moves forward as the volume grows. */
  lemma ProgressMonotoneInBand(v1: real, v2: real)
    requires v1 <= v2 && LevelScore(v1) == LevelScore(v2)
    ensures LevelProgress(v1) <= LevelProgress(v2)
  {
    var lo, hi := LevelFloor(v1) as real, NextThreshold(v1) as real;
    assert LevelFloor(v2) as real == lo && NextThreshold(v2) as real == hi;
    if hi > lo {
      var d := hi - lo;
      assert (v2 - lo) / d - (v1 - lo) / d == (v2 - v1) / d;
      assert (v2 - v1) / d >= 0.0;
    }
  }

  // ---------------------------------------------------------------------------
  // The three operations of the source

  /** `calculateScore`: walk the table while the volume reaches each tier, then keep doubling
      the last tier's amount while the volume reaches twice the current amount. */
  method CalculateScore(totalValue: real) returns (score: nat)
    ensures score == LevelScore(totalValue)
  {
    ScoreLevelsFollowCurve();
    score := 0;
    var i := 0;
    while i < |ScoreLevels|
      invariant 0 <= i <= |ScoreLevels|
      invariant score == i
      invariant i > 0 ==> totalValue >= Pow2(i) as real
    {
      if totalValue >= ScoreLevels[i].amount as real {
        score := ScoreLevels[i].score;
      } else {
        break;
      }
      i := i + 1;
    }

    if totalValue > ScoreLevels[|ScoreLevels| - 1].amount as real {
      var lastLevel := ScoreLevels[|ScoreLevels| - 1];
      var currentAmount: real := lastLevel.amount as real;
      var currentScore: nat := lastLevel.score;
      while totalValue >= currentAmount * 2.0
        invariant currentScore >= 5 && currentAmount == Pow2(currentScore) as real
        invariant totalValue >= currentAmount
        decreases (totalValue - currentAmount).Floor
      {
        currentAmount := currentAmount * 2.0;
        currentScore := currentScore + 1;
      }
      score := currentScore;
    }

    Pow2Small();
    if totalValue >= 2.0 {
      LevelScoreBand(totalValue, score);
    }
  }

  /** `getNextLevelAmount`: the first table tier above the volume, else 64 doubled until it
      exceeds the volume; the un-doubled amount still to trade is half the gap. */
  method GetNextLevelAmount(totalValue: real) returns (amount: real)
    ensures amount == (NextThreshold(totalValue) as real - totalValue) / 2.0
    ensures amount > 0.0
  {
    ScoreLevelsFollowCurve();
    Pow2Small();
    var nextLevelTarget: nat := 0;
    var i := 0;
    while i < |ScoreLevels|
      invariant 0 <= i <= |ScoreLevels|
      invariant nextLevelTarget == 0
      invariant i > 0 ==> totalValue >= Pow2(i) as real
    {
      if totalValue < ScoreLevels[i].amount as real {
        nextLevelTarget := ScoreLevels[i].amount;
        break;
      }
      i := i + 1;
    }
    assert nextLevelTarget != 0 ==>
      (nextLevelTarget == Pow2(i + 1) && totalValue < Pow2(i + 1) as real);

    if nextLevelTarget == 0 {
      var lastLevel := ScoreLevels[|ScoreLevels| - 1];
      nextLevelTarget := lastLevel.amount * 2;
      ghost var k: nat := 6;
      while totalValue >= nextLevelTarget as real
        invariant k >= 6 && nextLevelTarget == Pow2(k) && totalValue >= Pow2(k - 1) as real
        decreases (totalValue - nextLevelTarget as real).Floor
      {
        nextLevelTarget := nextLevelTarget * 2;
        k := k + 1;
      }
      LevelScoreBand(totalValue, k - 1);
    } else if i > 0 {
      LevelScoreBand(totalValue, i);
    }
    amount := (nextLevelTarget as real - totalValue) / 2.0;
  }

  /** `getCurrentLevelInfo`: the band [currentLevel, nextLevel) that holds the volume and the
      clamped percentage of the way through it. */
  method GetCurrentLevelInfo(totalValue: real) returns (info: LevelInfo)
    ensures totalValue < 2.0 ==> info.currentLevel == 0 && info.nextLevel == 2
    ensures totalValue >= 2.0 ==>
      info.nextLevel == 2 * info.currentLevel
      && info.currentLevel as real <= totalValue < info.nextLevel as real
    ensures info.currentLevel == LevelFloor(totalValue) && info.nextLevel == NextThreshold(totalValue)
    ensures 0.0 <= info.progress <= 100.0 && info.progress == LevelProgress(totalValue)
  {
    ScoreLevelsFollowCurve();
    Pow2Small();
    var currentLevel: nat := 0;
    var nextLevel: nat := 0;
    var i := 0;
    while i < |ScoreLevels|
      invariant 0 <= i <= |ScoreLevels|
      invariant nextLevel == 0
      invariant currentLevel == if i == 0 then 0 else Pow2(i)
      invariant i > 0 ==> totalValue >= Pow2(i) as real
    {
      if totalValue >= ScoreLevels[i].amount as real {
        currentLevel := ScoreLevels[i].amount;
      } else {
        nextLevel := ScoreLevels[i].amount;
        break;
      }
      i := i + 1;
    }
    assert nextLevel != 0 ==> nextLevel == Pow2(i + 1) && totalValue < Pow2(i + 1) as real;

    if nextLevel == 0 {
      var lastLevel := ScoreLevels[|ScoreLevels| - 1];
      nextLevel := lastLevel.amount * 2;
      ghost var k: nat := 5;
      while totalValue >= nextLevel as real
        invariant k >= 5 && currentLevel == Pow2(k) && nextLevel == 2 * currentLevel
        invariant totalValue >= currentLevel as real
        decreases (totalValue - nextLevel as real).Floor
      {
        currentLevel := nextLevel;
        nextLevel := nextLevel * 2;
        k := k + 1;
      }
      LevelScoreBand(totalValue, k);
    } else if i > 0 {
      LevelScoreBand(totalValue, i);
    }

    var progress := 0.0;
    if nextLevel > currentLevel {
      progress := (totalValue - currentLevel as real) / (nextLevel as real - currentLevel as real) * 100.0;
    }
    info := LevelInfo(currentLevel, nextLevel, Clamp(progress));
  }
}
