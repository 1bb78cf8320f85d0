/** The progression calculator: the per-level XP curve, the XP-to-level
    loop, progress within a level, and the unlock test. */
module LevelSystem {

  import Arithmetic

  /** XP every round earns, and the extra XP a won round earns. */
  const XpPerGame: int := 10
  const XpWinBonus: int := 5

  function Pow(b: nat, e: nat): (r: nat)
    ensures b >= 1 ==> r >= 1
  {
    if e == 0 then 1 else b * Pow(b, e - 1)
  }

  /** 3^k is never below 2^k. */
  lemma {:induction false} PowThreeAtLeastPowTwo(k: nat)
    ensures Pow(3, k) >= Pow(2, k)
  {
    if k > 0 {
      PowThreeAtLeastPowTwo(k - 1);
    }
  }

  /** `getXPForLevel`: floor(100 * 1.5^(level - 1)), computed over the
      integers as 100 * 3^(level-1) div 2^(level-1) (and, for levels below 1,
      where the exponent is negative, as 100 * 2^(1-level) div 3^(1-level)).
      Every level from 1 on requires at least 100 XP. */
  function XpForLevel(level: int): (r: nat)
    ensures level >= 1 ==> r >= 100
  {
    if level >= 1 then
      PowThreeAtLeastPowTwo(level - 1);
      Arithmetic.DivLowerBound(100 * Pow(3, level - 1), Pow(2, level - 1), 100);
      (100 * Pow(3, level - 1)) / Pow(2, level - 1)
    else
      (100 * Pow(2, 1 - level)) / Pow(3, 1 - level)
  }

  /** 1.5^e over the reals, for any integer exponent. */
  function RealPowOneAndHalf(e: int): real
    decreases if e >= 0 then e else -e
  {
    if e == 0 then 1.0
    else if e > 0 then 1.5 * RealPowOneAndHalf(e - 1)
    else RealPowOneAndHalf(e + 1) / 1.5
  }

  lemma {:induction false} RealPowAsRatio(k: nat)
    ensures RealPowOneAndHalf(k) == (Pow(3, k) as real) / (Pow(2, k) as real)
  {
    if k > 0 {
      RealPowAsRatio(k - 1);
      var a, b := Pow(3, k - 1) as real, Pow(2, k - 1) as real;
      assert b > 0.0;
      assert RealPowOneAndHalf(k) == (3.0 / 2.0) * (a / b);
      Arithmetic.ProductOfRatios(3.0, 2.0, a, b);
    }
  }

  lemma {:induction false} RealPowAsInverseRatio(k: nat)
    ensures RealPowOneAndHalf(-(k as int)) == (Pow(2, k) as real) / (Pow(3, k) as real)
  {
    if k > 0 {
      RealPowAsInverseRatio(k - 1);
      var a, b := Pow(2, k - 1) as real, Pow(3, k - 1) as real;
      assert b > 0.0;
      assert -(k as int) + 1 == -((k - 1) as int);
      assert RealPowOneAndHalf(-(k as int)) == (2.0 / 3.0) * (a / b);
      Arithmetic.ProductOfRatios(2.0, 3.0, a, b);
    }
  }

  /** The integer curve is the floor of the real formula 100 * 1.5^(level-1)
      that getXPForLevel evaluates, at every level. */
  lemma XpForLevelIsFloor(level: int)
    ensures XpForLevel(level) == (100.0 * RealPowOneAndHalf(level - 1)).Floor
  {
    if level >= 1 {
      FloorAtNonNegativeExponent(level - 1);
    } else {
      FloorAtNegativeExponent(1 - level);
    }
  }

  /** The case level = k + 1 of XpForLevelIsFloor. */
  lemma FloorAtNonNegativeExponent(k: nat)
    ensures (100 * Pow(3, k)) / Pow(2, k) == (100.0 * RealPowOneAndHalf(k)).Floor
  {
    RealPowAsRatio(k);
    ScaledRatio(100, Pow(3, k), Pow(2, k));
    Arithmetic.FloorOfRatio(100 * Pow(3, k), Pow(2, k));
  }

  /** The case level = 1 - k of XpForLevelIsFloor. */
  lemma FloorAtNegativeExponent(k: nat)
    ensures (100 * Pow(2, k)) / Pow(3, k) == (100.0 * RealPowOneAndHalf(-(k as int))).Floor
  {
    RealPowAsInverseRatio(k);
    ScaledRatio(100, Pow(2, k), Pow(3, k));
    Arithmetic.FloorOfRatio(100 * Pow(2, k), Pow(3, k));
  }

  /** Scaling a ratio by an integer scales its numerator. */
  lemma ScaledRatio(n: int, p: nat, q: nat)
    requires q > 0
    ensures (n as real) * ((p as real) / (q as real)) == ((n * p) as real) / (q as real)
  {
  }

  /** Each level from 1 on requires at least 50 XP more than the one before,
      so the curve is strictly increasing. */
  lemma XpForLevelGrowth(level: int)
    requires level >= 1
    ensures XpForLevel(level + 1) >= XpForLevel(level) + 50
  {
    var k := level - 1;
    var a, b := 100 * Pow(3, k), Pow(2, k);
    var q := a / b;
    PowThreeAtLeastPowTwo(k);
    assert a >= 100 * b;
    assert a >= q * b;
    assert 100 * Pow(3, k + 1) == 3 * a && Pow(2, k + 1) == 2 * b;
    assert 3 * a >= (q + 50) * (2 * b);
    Arithmetic.DivLowerBound(3 * a, 2 * b, q + 50);
  }

  /** A higher level always requires more XP than a lower one (from 1 on). */
  lemma {:induction false} XpForLevelIncreasing(m: int, n: int)
    requires 1 <= m < n
    ensures XpForLevel(m) < XpForLevel(n)
    decreases n - m
  {
    XpForLevelGrowth(n - 1);
    if m < n - 1 {
      XpForLevelIncreasing(m, n - 1);
    }
  }

  /** The XP consumed by clearing levels 1..n (the running total of the loops). */
  function CumulativeXp(n: int): nat
  {
    if n <= 0 then 0 else CumulativeXp(n - 1) + XpForLevel(n)
  }

  /** The cumulative requirement is strictly increasing from 0 on. */
  lemma {:induction false} CumulativeXpIncreasing(m: int, n: int)
    requires 0 <= m < n
    ensures CumulativeXp(m) < CumulativeXp(n)
    decreases n - m
  {
    if m < n - 1 {
      CumulativeXpIncreasing(m, n - 1);
    }
  }

  /** The loop of getLevelFromXP run from the state (level, totalXp) on: it
      stops at the first level whose cumulative requirement exceeds `xp`. */
  function LevelSearch(xp: int, level: int, totalXp: int): (r: int)
    requires level >= 1 && totalXp == CumulativeXp(level - 1)
    ensures r >= level && xp < CumulativeXp(r)
    ensures r > level ==> CumulativeXp(r - 1) <= xp
    decreases xp - totalXp
  {
    if totalXp + XpForLevel(level) <= xp then LevelSearch(xp, level + 1, totalXp + XpForLevel(level))
    else level
  }

  /** `getLevelFromXP` as a function: levels start at 1, and the level is the
      one whose cumulative bracket holds `xp`. */
  function LevelFromXp(xp: int): (level: int)
    ensures level >= 1 && xp < CumulativeXp(level)
    ensures level > 1 ==> CumulativeXp(level - 1) <= xp
  {
    LevelSearch(xp, 1, 0)
  }

  /** `getLevelFromXP`: the while loop that adds up the per-level requirements. */
  method GetLevelFromXp(xp: int) returns (level: int)
    ensures level == LevelFromXp(xp)
    ensures level >= 1 && xp < CumulativeXp(level)
    ensures xp >= 0 ==> CumulativeXp(level - 1) <= xp
  {
    level := 1;
    var totalXp := 0;
    while totalXp + XpForLevel(level) <= xp
      invariant level >= 1 && totalXp == CumulativeXp(level - 1)
      invariant level > 1 ==> totalXp <= xp
      decreases xp - totalXp
    {
      totalXp := totalXp + XpForLevel(level);
      level := level + 1;
    }
    LevelFromXpUnique(xp, level);
  }

  /** The bracket determines the level: any level whose bracket holds `xp`
      is the one LevelFromXp computes (so an iteration and a closed form agree). */
  lemma LevelFromXpUnique(xp: int, level: int)
    requires level >= 1 && xp < CumulativeXp(level)
    requires level > 1 ==> CumulativeXp(level - 1) <= xp
    ensures LevelFromXp(xp) == level
  {
    var l := LevelFromXp(xp);
    if l < level {
      if l < level - 1 { CumulativeXpIncreasing(l, level - 1); }
    } else if l > level {
      if level < l - 1 { CumulativeXpIncreasing(level, l - 1); }
    }
  }

  /** No XP means level 1. */
  lemma LevelFromXpZero()
    ensures LevelFromXp(0) == 1
  {
    LevelFromXpUnique(0, 1);
  }

  /** More XP never means a lower level. */
  lemma LevelFromXpMonotone(xp1: int, xp2: int)
    requires xp1 <= xp2
    ensures LevelFromXp(xp1) <= LevelFromXp(xp2)
  {
    var l1, l2 := LevelFromXp(xp1), LevelFromXp(xp2);
    if l1 > l2 {
      if l2 < l1 - 1 { CumulativeXpIncreasing(l2, l1 - 1); }
    }
  }

  /** Reaching level n (n >= 1) takes exactly the XP of clearing levels 1..n-1. */
  lemma LevelAtLeast(xp: int, n: int)
    requires xp >= 0 && n >= 1
    ensures LevelFromXp(xp) >= n <==> xp >= CumulativeXp(n - 1)
  {
    var l := LevelFromXp(xp);
    if l >= n {
      if n - 1 < l - 1 { CumulativeXpIncreasing(n - 1, l - 1); }
    } else {
      if l < n - 1 { CumulativeXpIncreasing(l, n - 1); }
    }
  }

  /** `getXPProgress` without its floating-point percentage: the for loop
      adds up the requirements of the levels below `level`. */
  method GetXpProgress(xp: int, level: int) returns (current: int, required: int)
    ensures current == xp - CumulativeXp(level - 1)
    ensures required == XpForLevel(level)
    ensures xp >= 0 && level == LevelFromXp(xp) ==> 0 <= current < required
  {
    var totalXp := 0;
    var i := 1;
    while i < level
      invariant 1 <= i && (level >= 1 ==> i <= level) && (level < 1 ==> i == 1)
      invariant totalXp == CumulativeXp(i - 1)
    {
      totalXp := totalXp + XpForLevel(i);
      i := i + 1;
    }
    current := xp - totalXp;
    required := XpForLevel(level);
  }

  /** `isGameUnlocked`: a game is open once the user's level reaches its unlock level. */
  predicate IsGameUnlocked(gameLevel: int, userLevel: int)
    ensures gameLevel <= 1 && userLevel >= 1 ==> IsGameUnlocked(gameLevel, userLevel)
  {
    userLevel >= gameLevel
  }

  /** In terms of XP: a game with unlock level n is open exactly once the
      player has earned the requirements of levels 1 to n - 1. */
  lemma UnlockedIffXpReaches(gameLevel: int, xp: int)
    requires xp >= 0 && gameLevel >= 1
    ensures IsGameUnlocked(gameLevel, LevelFromXp(xp)) <==> xp >= CumulativeXp(gameLevel - 1)
  {
    LevelAtLeast(xp, gameLevel);
  }

  /** Once a game is unlocked it stays unlocked as XP grows. */
  lemma UnlockIsPermanent(gameLevel: int, xp1: int, xp2: int)
    requires xp1 <= xp2 && IsGameUnlocked(gameLevel, LevelFromXp(xp1))
    ensures IsGameUnlocked(gameLevel, LevelFromXp(xp2))
  {
    LevelFromXpMonotone(xp1, xp2);
  }

  /** The documented values of the curve. */
  lemma ProgressionExamples()
    ensures XpForLevel(1) == 100 && XpForLevel(2) == 150 && XpForLevel(3) == 225
    ensures LevelFromXp(0) == 1
  {
    LevelFromXpZero();
  }

  /** A fresh player's progress: `getXPProgress(0, 1)` is 0 of 100. */
  method NewPlayerProgress() returns (current: int, required: int)
    ensures current == 0 && required == 100
  {
    current, required := GetXpProgress(0, 1);
  }
}
