/**
 * The experience table of the game server: the level a character has for a
 * given amount of experience, and the experience needed to leave a level.
 */
module Levels {

  /** The 19 thresholds: experience at or above Thresholds[k] means level k + 2 or more. */
  const Thresholds: seq<int> :=
    [200, 550, 1050, 1700, 2500, 3450, 4550, 5800, 7200, 8750,
     10450, 12300, 14300, 16450, 18750, 21200, 23800, 26550, 29450]

  const MaxLevel := 20

  /** Each threshold is strictly above the one before it. */
  predicate Increasing(ts: seq<int>)
  {
    forall i :: 0 <= i < |ts| - 1 ==> ts[i] < ts[i + 1]
  }

  /** Reference definition: how many thresholds of `ts` the amount `x` has reached. */
  function Reached(ts: seq<int>, x: int): (n: nat)
    ensures n <= |ts|
  {
    if |ts| == 0 then 0
    else (if ts[0] <= x then 1 else 0) + Reached(ts[1..], x)
  }

  /** The level for an amount of experience, as the server's if-chain computes it. */
  function LevelFromExp(exp: int): (level: int)
    ensures 1 <= level <= MaxLevel
    ensures level == 1 <==> exp < 200
    ensures level == MaxLevel <==> 29450 <= exp
  {
    if exp < 200 then 1
    else if exp < 550 then 2
    else if exp < 1050 then 3
    else if exp < 1700 then 4
    else if exp < 2500 then 5
    else if exp < 3450 then 6
    else if exp < 4550 then 7
    else if exp < 5800 then 8
    else if exp < 7200 then 9
    else if exp < 8750 then 10
    else if exp < 10450 then 11
    else if exp < 12300 then 12
    else if exp < 14300 then 13
    else if exp < 16450 then 14
    else if exp < 18750 then 15
    else if exp < 21200 then 16
    else if exp < 23800 then 17
    else if exp < 26550 then 18
    else if exp < 29450 then 19
    else 20
  }

  /** The experience at which `level` ends; 0 for a level outside 1..19. */
  function NextExp(level: int): (next: int)
    ensures 1 <= level <= 19 ==> next == Thresholds[level - 1]
    ensures !(1 <= level <= 19) ==> next == 0
  {
    match level
    case 1 => 200
    case 2 => 550
    case 3 => 1050
    case 4 => 1700
    case 5 => 2500
    case 6 => 3450
    case 7 => 4550
    case 8 => 5800
    case 9 => 7200
    case 10 => 8750
    case 11 => 10450
    case 12 => 12300
    case 13 => 14300
    case 14 => 16450
    case 15 => 18750
    case 16 => 21200
    case 17 => 23800
    case 18 => 26550
    case 19 => 29450
    case _ => 0
  }

  lemma ThresholdsIncreasing()
    ensures |Thresholds| == 19 && Increasing(Thresholds)
  {
  }

  lemma {:induction false} IncreasingOrdered(ts: seq<int>, i: int, j: int)
    requires Increasing(ts) && 0 <= i <= j < |ts|
    ensures ts[i] <= ts[j]
  {
    if i < j {
      IncreasingOrdered(ts, i, j - 1);
    }
  }

  lemma {:induction false} IncreasingTail(ts: seq<int>)
    requires Increasing(ts) && |ts| > 0
    ensures Increasing(ts[1..])
  {
    forall i | 0 <= i < |ts[1..]| - 1
      ensures ts[1..][i] < ts[1..][i + 1]
    {
      assert ts[1..][i] == ts[i + 1] && ts[1..][i + 1] == ts[i + 2];
    }
  }

  /** In an increasing table, an amount between the k-th and (k+1)-th threshold has reached exactly k. */
  lemma {:induction false} ReachedBetween(ts: seq<int>, x: int, k: nat)
    requires Increasing(ts) && k <= |ts|
    requires k > 0 ==> ts[k - 1] <= x
    requires k < |ts| ==> x < ts[k]
    ensures Reached(ts, x) == k
  {
    if |ts| > 0 {
      IncreasingTail(ts);
      if k == 0 {
        ReachedBetween(ts[1..], x, 0);
      } else {
        IncreasingOrdered(ts, 0, k - 1);
        ReachedBetween(ts[1..], x, k - 1);
      }
    }
  }

  /** Reaching thresholds is monotone in the amount. */
  lemma {:induction false} ReachedMonotone(ts: seq<int>, x: int, y: int)
    requires x <= y
    ensures Reached(ts, x) <= Reached(ts, y)
  {
    if |ts| > 0 {
      ReachedMonotone(ts[1..], x, y);
    }
  }

  /** The if-chain is the reference definition: one plus the number of thresholds reached. */
  lemma LevelCountsThresholds(exp: int)
    ensures LevelFromExp(exp) == 1 + Reached(Thresholds, exp)
  {
    ThresholdsIncreasing();
    ReachedBetween(Thresholds, exp, LevelFromExp(exp) - 1);
  }

  /** More experience never means a lower level. */
  lemma LevelMonotone(a: int, b: int)
    requires a <= b
    ensures LevelFromExp(a) <= LevelFromExp(b)
  {
    LevelCountsThresholds(a);
    LevelCountsThresholds(b);
    ReachedMonotone(Thresholds, a, b);
  }

  /** NextExp(L) is exactly where level L ends and level L + 1 begins. */
  lemma NextExpIsBoundary(level: int)
    requires 1 <= level <= 19
    ensures LevelFromExp(NextExp(level) - 1) == level
    ensures LevelFromExp(NextExp(level)) == level + 1
  {
    ThresholdsIncreasing();
    var t := Thresholds[level - 1];
    if level >= 2 {
      assert Thresholds[level - 2] < t;
    }
    ReachedBetween(Thresholds, t - 1, level - 1);
    LevelCountsThresholds(t - 1);
    if level <= 18 {
      assert t < Thresholds[level];
    }
    ReachedBetween(Thresholds, t, level);
    LevelCountsThresholds(t);
  }

  /** Every level below the maximum has a boundary above all experience of that level. */
  lemma NextExpAboveLevel(exp: int)
    requires LevelFromExp(exp) < MaxLevel
    ensures exp < NextExp(LevelFromExp(exp))
  {
    var level := LevelFromExp(exp);
    NextExpIsBoundary(level);
    if NextExp(level) <= exp {
      LevelMonotone(NextExp(level), exp);
    }
  }
}
