/**
 User levels and the exp loop. The loop adds the unprocessed amount again on every pass, so a
 grant larger than the current level's cost is worth more than its amount; the exact surplus is
 proved here.
 */
module Levels {
  import opened Prelude

  type UserId = int

  const BASE_LEVEL_UP_COST := 100
  const MAXIMUM_LEVEL := 50

  datatype UserLevel = UserLevel(currentLevel: int, currentLevelExp: int, levelUpExpCost: int, expMultiplier: int)

  /** The column defaults of a new row. */
  const FRESH := UserLevel(1, 0, BASE_LEVEL_UP_COST, 1)

  /** getLevelUpExpCost in exact integers. */
  function LevelUpExpCost(level: int): int {
    70 * level + 2 * level * level
  }

  /** The formula the service evaluates, over the reals, is that integer. */
  lemma CostFormula(level: int)
    ensures (level * BASE_LEVEL_UP_COST) as real * (1.2 + (level as real / MAXIMUM_LEVEL as real - 0.5))
            == LevelUpExpCost(level) as real
  {
    var x := level as real;
    assert (level * BASE_LEVEL_UP_COST) as real == x * 100.0;
    assert x * 100.0 * (1.2 + (x / 50.0 - 0.5)) == 70.0 * x + 2.0 * x * x;
    assert (70 * level + 2 * level * level) as real == 70.0 * x + 2.0 * x * x;
  }

  /** What leaving a level costs: the first level has the column default. */
  function CostOf(level: int): int {
    if level <= 1 then BASE_LEVEL_UP_COST else LevelUpExpCost(level)
  }

  lemma CostIsPositive(level: int)
    ensures CostOf(level) >= BASE_LEVEL_UP_COST
    ensures CostOf(level) <= CostOf(level + 1)
  {
    if level >= 1 {
      assert (level + 1) * (level + 1) == level * level + 2 * level + 1;
    }
  }

  /** The row every run of the service leaves: its cost is the cost of its level. */
  ghost predicate Wellformed(u: UserLevel) {
    u.currentLevel >= 1 && u.currentLevelExp >= 0 && u.levelUpExpCost == CostOf(u.currentLevel)
  }

  /** A row whose exp has not reached the cost of its level. */
  ghost predicate Settled(u: UserLevel) {
    Wellformed(u) && u.currentLevelExp < u.levelUpExpCost
  }

  /** The exp spent on passing the levels below. */
  function Passed(level: int): int
    decreases level
  {
    if level <= 1 then 0 else Passed(level - 1) + CostOf(level - 1)
  }

  function Lifetime(u: UserLevel): int {
    Passed(u.currentLevel) + u.currentLevelExp
  }

  /** What the loop adds beyond the amount: every later pass adds what is still unprocessed. */
  function Surplus(amount: int, level: int): int
    decreases amount
  {
    if amount <= CostOf(level) then 0
    else
      CostIsPositive(level);
      var rest := amount - CostOf(level);
      rest + Surplus(rest, level + 1)
  }

  /** No surplus exactly when the amount is at most the current level's cost. */
  lemma {:induction false} SurplusExactly(amount: int, level: int)
    ensures Surplus(amount, level) >= 0
    ensures Surplus(amount, level) == 0 <==> amount <= CostOf(level)
    decreases amount
  {
    if amount > CostOf(level) {
      CostIsPositive(level);
      SurplusExactly(amount - CostOf(level), level + 1);
    }
  }

  /** The surplus of pass k is what the amount exceeds the next k levels' costs by. */
  function Shortfalls(amount: int, level: int, passes: nat): int {
    if passes == 0 then 0
    else Shortfalls(amount, level, passes - 1) + Max(0, amount - (Passed(level + passes) - Passed(level)))
  }

  /** The surplus in closed form: once the levels passed cost more than the amount, further terms are zero. */
  lemma {:induction false} SurplusClosedForm(amount: int, level: int, passes: nat)
    requires level >= 1 && amount <= Passed(level + passes + 1) - Passed(level)
    ensures Surplus(amount, level) == Shortfalls(amount, level, passes)
    decreases passes
  {
    CostIsPositive(level);
    if amount <= CostOf(level) {
      ShortfallsVanish(amount, level, passes);
    } else if passes > 0 {
      SurplusClosedForm(amount - CostOf(level), level + 1, passes - 1);
      ShortfallsShift(amount, level, passes);
    }
  }

  lemma {:induction false} ShortfallsVanish(amount: int, level: int, passes: nat)
    requires level >= 1 && amount <= CostOf(level)
    ensures Shortfalls(amount, level, passes) == 0
    ensures Passed(level) <= Passed(level + passes)
        && (passes > 0 ==> Passed(level + passes) >= Passed(level) + CostOf(level))
  {
    if passes > 0 {
      ShortfallsVanish(amount, level, passes - 1);
      CostIsPositive(level + passes - 1);
    }
  }

  lemma {:induction false} ShortfallsShift(amount: int, level: int, passes: nat)
    requires level >= 1 && passes > 0 && amount > CostOf(level)
    ensures Shortfalls(amount, level, passes)
         == amount - CostOf(level) + Shortfalls(amount - CostOf(level), level + 1, passes - 1)
  {
    if passes > 1 {
      ShortfallsShift(amount, level, passes - 1);
    } else {
      assert Shortfalls(amount, level, 1)
          == Shortfalls(amount, level, 0) + Max(0, amount - (Passed(level + 1) - Passed(level)));
    }
  }

  /** Settled rows with the same lifetime exp are at the same place. */
  lemma SettledIsUnique(u: UserLevel, v: UserLevel)
    requires Settled(u) && Settled(v) && Lifetime(u) == Lifetime(v)
    ensures u.currentLevel == v.currentLevel && u.currentLevelExp == v.currentLevelExp
  {
    if u.currentLevel < v.currentLevel {
      PassedGrows(u.currentLevel + 1, v.currentLevel);
    } else if v.currentLevel < u.currentLevel {
      PassedGrows(v.currentLevel + 1, u.currentLevel);
    }
  }

  lemma {:induction false} PassedGrows(low: int, high: int)
    requires 1 <= low <= high
    ensures Passed(low) <= Passed(high)
    decreases high
  {
    if low < high {
      PassedGrows(low, high - 1);
      CostIsPositive(high - 1);
    }
  }

  /** One pass of the loop; the caller subtracts the cost it had before. */
  function Pass(u: UserLevel, unprocessed: int): UserLevel {
    var total := u.currentLevelExp + unprocessed;
    if total >= u.levelUpExpCost
    then u.(currentLevel := u.currentLevel + 1,
            currentLevelExp := total - u.levelUpExpCost,
            levelUpExpCost := LevelUpExpCost(u.currentLevel + 1))
    else u.(currentLevelExp := total)
  }

  lemma PassAddsUnprocessed(u: UserLevel, unprocessed: int)
    requires Wellformed(u) && unprocessed > 0
    ensures var v := Pass(u, unprocessed);
      && Wellformed(v) && v.currentLevel >= u.currentLevel && v.expMultiplier == u.expMultiplier
      && Lifetime(v) == Lifetime(u) + unprocessed
      && (unprocessed >= u.levelUpExpCost ==> v.currentLevel == u.currentLevel + 1)
      && (unprocessed <= u.levelUpExpCost && Settled(u) ==> Settled(v))
  {
    CostIsPositive(u.currentLevel);
  }

  /** What an amount is worth at a level: itself and its surplus. */
  function Worth(amount: int, level: int): int {
    if amount <= 0 then 0 else amount + Surplus(amount, level)
  }

  /** One pass takes its own amount off the worth and leaves the worth of the rest at the new level. */
  lemma PassKeepsWorth(u: UserLevel, unprocessed: int)
    requires Wellformed(u) && unprocessed > 0
    ensures var v, rest := Pass(u, unprocessed), unprocessed - u.levelUpExpCost;
      Lifetime(v) + Worth(rest, v.currentLevel) == Lifetime(u) + Worth(unprocessed, u.currentLevel)
  {
    PassAddsUnprocessed(u, unprocessed);
    SurplusExactly(unprocessed, u.currentLevel);
  }

  /** The loop of increaseExp on the entity, for an amount already multiplied. It always ends. */
  method Process(before: UserLevel, amount: int) returns (updated: UserLevel)
    requires Wellformed(before)
    ensures Wellformed(updated) && updated.currentLevel >= before.currentLevel
    ensures updated.expMultiplier == before.expMultiplier
    ensures Lifetime(updated) == Lifetime(before) + Worth(amount, before.currentLevel)
    ensures amount <= before.levelUpExpCost && Settled(before) ==> Settled(updated)
    ensures amount <= 0 ==> updated == before
  {
    updated := before;
    var unprocessed := amount;
    while unprocessed > 0
      invariant Wellformed(updated) && updated.currentLevel >= before.currentLevel
      invariant updated.expMultiplier == before.expMultiplier
      invariant Lifetime(updated) + Worth(unprocessed, updated.currentLevel)
             == Lifetime(before) + Worth(amount, before.currentLevel)
      invariant amount <= 0 ==> updated == before
      invariant amount <= before.levelUpExpCost && Settled(before) ==>
                  Settled(updated) && (unprocessed > 0 ==> updated == before && unprocessed == amount)
      decreases unprocessed
    {
      PassAddsUnprocessed(updated, unprocessed);
      PassKeepsWorth(updated, unprocessed);
      CostIsPositive(updated.currentLevel);
      var required := updated.levelUpExpCost;
      updated := OnePass(updated, unprocessed);
      unprocessed := unprocessed - required;
    }
  }

  /** The body of the loop, as the service writes it. */
  method OnePass(entity: UserLevel, unprocessed: int) returns (updated: UserLevel)
    ensures updated == Pass(entity, unprocessed)
    ensures Wellformed(entity) && unprocessed > 0 ==>
              && Wellformed(updated) && Lifetime(updated) == Lifetime(entity) + unprocessed
              && (updated.currentLevel == entity.currentLevel + 1
                  <==> entity.currentLevelExp + unprocessed >= entity.levelUpExpCost)
              && (updated.currentLevel == entity.currentLevel || updated.currentLevel == entity.currentLevel + 1)
  {
    if Wellformed(entity) && unprocessed > 0 { PassAddsUnprocessed(entity, unprocessed); }
    updated := entity;
    var totalCurrentLevelExp := updated.currentLevelExp + unprocessed;
    var nextLevel := updated.currentLevel + 1;
    var nextLevelRequiredExp := LevelUpExpCost(nextLevel);
    var currentLevelRequiredExp := updated.levelUpExpCost;
    if totalCurrentLevelExp >= updated.levelUpExpCost {
      var remainingExp := 0;
      if totalCurrentLevelExp - currentLevelRequiredExp > 0 {
        remainingExp := totalCurrentLevelExp - currentLevelRequiredExp;
      }
      updated := updated.(currentLevel := nextLevel);
      updated := updated.(currentLevelExp := remainingExp);
      updated := updated.(levelUpExpCost := nextLevelRequiredExp);
    } else {
      updated := updated.(currentLevelExp := updated.currentLevelExp + unprocessed);
    }
  }

  class LevelStore {
    var levels: map<UserId, UserLevel>

    constructor ()
      ensures levels == map[]
    {
      levels := map[];
    }

    /** increaseExp: the row is created when missing, at level one without exp; only this user's row changes. */
    method IncreaseExp(user: UserId, amount: int)
      requires user in levels ==> Wellformed(levels[user])
      modifies this
      ensures user in levels && levels == old(levels)[user := levels[user]]
      ensures var before := if user in old(levels) then old(levels)[user] else UserLevel(1, 0, 100, 1);
              var worth := Worth(amount * before.expMultiplier, before.currentLevel);
              && Wellformed(levels[user]) && levels[user].expMultiplier == before.expMultiplier
              && levels[user].currentLevel >= before.currentLevel && Lifetime(levels[user]) == Lifetime(before) + worth
              && (amount * before.expMultiplier <= before.levelUpExpCost && Settled(before) ==> Settled(levels[user]))
    {
      if user !in levels { levels := levels[user := FRESH]; }
      var multiplied := amount * levels[user].expMultiplier;
      var updated := Process(levels[user], multiplied);
      levels := levels[user := updated];
    }
  }

  /**
   A grant is worth exactly its amount when, and only when, it is at most the current level's cost;
   a larger one is worth strictly more.
   */
  lemma WorthExactly(amount: int, level: int)
    requires amount > 0
    ensures Worth(amount, level) >= amount
    ensures Worth(amount, level) == amount <==> amount <= CostOf(level)
  {
    SurplusExactly(amount, level);
  }

  /** A first grant of 400 at level 1 is worth 400 + 300 + 152. */
  lemma SurplusExample()
    ensures Worth(400, 1) == 852
  {
    assert CostOf(1) == 100 && CostOf(2) == 148 && CostOf(3) == 228;
    assert Surplus(152, 3) == 0;
    assert Surplus(300, 2) == 152;
  }
}
